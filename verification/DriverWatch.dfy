/** What every run of the driver keeps, indices offered twice included: the heap is in pop order and
    every live dialog's own deadline is still armed. */
module DriverWatch {
  import opened SipMessages
  import opened DriverModel
  import opened DriverTimers

  /** The dialog was offered in the past, has a positive interval, and its deadline is armed. */
  predicate Guarded(g: Dialog, ts: seq<Timer>, clock: int, i: int) {
    g.inviteAt <= clock && g.retransmitMs > 0 && Timer(g.inviteAt + TIMER_B_MS, Timeout, i) in ts
  }

  predicate AllGuarded(dialogs: map<int, Dialog>, ts: seq<Timer>, clock: int) {
    forall i :: i in dialogs ==> Guarded(dialogs[i], ts, clock, i)
  }

  predicate Watched(d: State) { Sorted(d.timers) && AllGuarded(d.table.dialogs, d.timers, d.clock) }

  lemma ClockWatched(d: State, clock: int)
    requires Watched(d) && d.clock <= clock
    ensures Watched(d.(clock := clock))
  {}

  lemma FinishWatched(cfg: Config, d: State, i: int, o: Outcome)
    requires Watched(d)
    ensures Watched(Finish(cfg, d, i, o))
  {}

  lemma SendWatched(cfg: Config, d: State, r: Request, i: int)
    requires Watched(d)
    ensures Watched(Send(cfg, d, r, i))
  {
    FinishWatched(cfg, Transmit(cfg, d, r), i, TransportError);
  }

  lemma ArmWatched(d: State, deadline: int, kind: TimerKind, i: int)
    requires Watched(d)
    ensures Watched(Arm(d, deadline, kind, i))
  {
    ArmedMembers(d.timers, Timer(deadline, kind, i));
    ArmedSorted(d.timers, Timer(deadline, kind, i));
  }

  lemma ReplaceWatched(d: State, i: int, g: Dialog, s: Stats)
    requires Watched(d) && i in d.table.dialogs && g.inviteAt == d.table.dialogs[i].inviteAt && g.retransmitMs > 0
    ensures Watched(d.(table := Replace(d.table, i, g), stats := s))
  {}

  lemma OfferWatched(cfg: Config, d: State, i: int, now: int)
    requires Watched(d) && d.clock <= now
    ensures Watched(Offer(cfg, d, i, now).(clock := now))
  {
    if d.table.active < cfg.maxActive {
      var d1 := Admit(cfg, d, i, now);
      if SendSucceeds(cfg, d1) { LaunchedWatched(cfg, d, i, now); }
      else { assert forall j :: j in d1.table.dialogs && j != i ==> j in d.table.dialogs; }
    }
  }

  lemma LaunchedWatched(cfg: Config, d: State, i: int, now: int)
    requires Watched(d) && d.clock <= now
    ensures var d1 := Admit(cfg, d, i, now);
            var ts := Armed(Armed(d.timers, Timer(now + T1_MS, RetransmitInvite, i)), Timer(now + TIMER_B_MS, Timeout, i));
            Sorted(ts) && AllGuarded(d1.table.dialogs, ts, now)
  {
    var t1, t2 := Timer(now + T1_MS, RetransmitInvite, i), Timer(now + TIMER_B_MS, Timeout, i);
    ArmedMembers(d.timers, t1);
    ArmedSorted(d.timers, t1);
    ArmedMembers(Armed(d.timers, t1), t2);
    ArmedSorted(Armed(d.timers, t1), t2);
  }

  lemma LaunchByeWatched(cfg: Config, d: State, i: int, now: int)
    requires Watched(d)
    ensures Watched(LaunchBye(cfg, d, i, now))
  {
    var d1 := Send(cfg, d, ByeMsg(cfg, i), i);
    SendWatched(cfg, d, ByeMsg(cfg, i), i);
    ArmWatched(d1, now + T1_MS, RetransmitBye, i);
    ArmWatched(Arm(d1, now + T1_MS, RetransmitBye, i), now + TIMER_B_MS, Timeout, i);
  }

  lemma EstablishWatched(cfg: Config, d: State, i: int, at: Readings)
    requires Watched(d) && i in d.table.dialogs
    ensures Watched(Establish(cfg, d, i, at))
  {
    var d1 := MarkEstablished(d, i, at);
    ReplaceWatched(d, i, d1.table.dialogs[i], d1.stats);
    SendWatched(cfg, d1, AckMsg(cfg, i), i);
    LaunchByeWatched(cfg, Send(cfg, d1, AckMsg(cfg, i), i), i, at.third);
  }

  lemma RefusalWatched(cfg: Config, d: State, i: int, r: Response)
    requires Watched(d) && i in d.table.dialogs
    ensures Watched(TakeRefusal(cfg, d, i, r))
  {}

  lemma CallingWatched(cfg: Config, d: State, i: int, r: Response, at: Readings)
    requires Watched(d) && i in d.table.dialogs
    ensures Watched(HandleCalling(cfg, d, i, r, at))
  {
    if Objectionable(cfg, d.table.dialogs[i].(phase := Calling), i, r) { FinishWatched(cfg, d, i, InvalidMessage); }
    else if r.code < 200 { TryingWatched(d, i); }
    else if r.code == 200 { EstablishWatched(cfg, d, i, at); }
    else { RefusalWatched(cfg, d, i, r); }
  }

  lemma TryingWatched(d: State, i: int)
    requires Watched(d) && i in d.table.dialogs
    ensures Watched(TakeTrying(d, i))
  {}

  lemma ByeWatched(cfg: Config, d: State, i: int, r: Response, at: Readings)
    requires Watched(d) && i in d.table.dialogs
    ensures Watched(HandleBye(cfg, d, i, r, at))
  {
    if r.cseq == INVITE_CSEQ {
      SendWatched(cfg, d.(stats := CountRetransmittedResponse(d.stats, d.table.dialogs[i].counted)), AckMsg(cfg, i), i);
    }
  }

  lemma HandleWatched(cfg: Config, d: State, r: Response, at: Readings)
    requires Watched(d) && Linked(d)
    ensures Watched(Handle(cfg, d, r, at))
  {
    if r.callId in d.table.byCallId {
      var i := d.table.byCallId[r.callId];
      if d.table.dialogs[i].phase == Calling { CallingWatched(cfg, d, i, r, at); } else { ByeWatched(cfg, d, i, r, at); }
    }
  }

  lemma ResendWatched(cfg: Config, d: State, t: Timer, r: Request, interval: int, now: int)
    requires Watched(d) && t.index in d.table.dialogs && interval > 0
    ensures Watched(Resend(cfg, d, t, r, interval, now))
  {
    var g := d.table.dialogs[t.index];
    var d1 := Send(cfg, d, r, t.index);
    SendWatched(cfg, d, r, t.index);
    if SendSucceeds(cfg, d) {
      var d2 := d1.(table := Replace(d1.table, t.index, g.(retransmitMs := interval)),
                    stats := CountRetransmittedRequest(d1.stats, g.counted));
      ReplaceWatched(d1, t.index, g.(retransmitMs := interval), d2.stats);
      ArmWatched(d2, now + interval, t.kind, t.index);
    }
  }

  /** A popped timer was the deadline of no dialog that stays live. */
  lemma PopWatched(d: State)
    requires Watched(d) && d.timers != []
    requires d.timers[0].kind != Timeout || d.timers[0].index !in d.table.dialogs
    ensures Watched(d.(timers := d.timers[1..]))
  {
    assert d.timers == [d.timers[0]] + d.timers[1..];
  }

  lemma FireWatched(cfg: Config, d: State, now: int)
    requires Watched(d) && d.timers != []
    ensures Watched(Fire(cfg, d, now))
  {
    var t, d1 := d.timers[0], d.(timers := d.timers[1..]);
    if t.index in d.table.dialogs && t.kind == Timeout {
      TimeoutWatched(cfg, d);
    } else {
      PopWatched(d);
      if t.index in d.table.dialogs {
        var g := d.table.dialogs[t.index];
        if t.kind == RetransmitInvite { ResendWatched(cfg, d1, t, InviteMsg(cfg, t.index), g.retransmitMs * 2, now); }
        else { ResendWatched(cfg, d1, t, ByeMsg(cfg, t.index), Min(g.retransmitMs * 2, T2_MS), now); }
      }
    }
  }

  lemma PopSorted(ts: seq<Timer>)
    requires ts != [] && Sorted(ts)
    ensures Sorted(ts[1..]) && forall t :: t in ts && t != ts[0] ==> t in ts[1..]
  {
    assert ts == [ts[0]] + ts[1..];
  }

  lemma TimeoutWatched(cfg: Config, d: State)
    requires Watched(d) && d.timers != [] && d.timers[0].kind == Timeout
    ensures Watched(Finish(cfg, d.(timers := d.timers[1..]), d.timers[0].index, TransactionTimeout))
  {
    var i := d.timers[0].index;
    PopSorted(d.timers);
    forall j | j in d.table.dialogs && j != i ensures Guarded(d.table.dialogs[j], d.timers[1..], d.clock, j) {
      assert Guarded(d.table.dialogs[j], d.timers, d.clock, j);
    }
  }

  lemma NextWatched(cfg: Config, d: State, e: Event)
    requires Watched(d) && Linked(d) && Enabled(d, e)
    ensures Watched(Next(cfg, d, e))
  {
    match e
    case OfferAt(i, now) => OfferWatched(cfg, d, i, now);
    case Arrival(r, at) =>
      HandleWatched(cfg, d, r, at);
      HandleKeepsClock(cfg, d, r, at);
      ClockWatched(Handle(cfg, d, r, at), at.third);
    case FireAt(now) =>
      FireWatched(cfg, d, now);
      FireKeepsClock(cfg, d, now);
      ClockWatched(Fire(cfg, d, now), now);
    case ExpireOne(i) => FinishWatched(cfg, d, i, CleanupTimeout);
    case StartCounting =>
    case ReadClock(now) => ClockWatched(d, now);
  }

  /** Every state of every run: the deadline armed at the offer is pending for as long as its dialog
      is live. */
  lemma {:induction false} RunWatched(cfg: Config, distinct: bool, start: State, es: seq<Event>, d: State)
    requires IsInitial(start) && Leads(cfg, distinct, start, es, d)
    ensures Watched(d)
    decreases |es|
  {
    if es != [] {
      var m := LeadsLast(cfg, distinct, start, es, d);
      RunWatched(cfg, distinct, start, es[..|es| - 1], m);
      NextWatched(cfg, m, es[|es| - 1]);
    }
  }

  /** Once nothing due is left in the heap, no live dialog is as old as Timer B, whatever indices were
      offered. */
  lemma NoneOutlivesTimerB(cfg: Config, distinct: bool, start: State, es: seq<Event>, d: State, now: int)
    requires IsInitial(start) && Leads(cfg, distinct, start, es, d)
    requires d.timers == [] || d.timers[0].deadline > now
    ensures forall i :: i in d.table.dialogs ==> now < d.table.dialogs[i].inviteAt + 64 * T1_MS
  {
    RunWatched(cfg, distinct, start, es, d);
    forall i | i in d.table.dialogs ensures now < d.table.dialogs[i].inviteAt + 64 * T1_MS {
      assert Guarded(d.table.dialogs[i], d.timers, d.clock, i);
      HeadBound(d.timers, Timer(d.table.dialogs[i].inviteAt + TIMER_B_MS, Timeout, i));
    }
  }

  /** Due timers at `now`; the inner timer loop counts it down. */
  function Due(ts: seq<Timer>, now: int): nat {
    if ts == [] then 0 else (if ts[0].deadline <= now then 1 else 0) + Due(ts[1..], now)
  }

  lemma {:induction false} DueArmed(ts: seq<Timer>, t: Timer, now: int)
    requires t.deadline > now
    ensures Due(Armed(ts, t), now) == Due(ts, now)
  {
    if ts == [] || t.deadline < ts[0].deadline {
      assert ([t] + ts)[1..] == ts;
    } else {
      DueArmed(ts[1..], t, now);
      assert ([ts[0]] + Armed(ts[1..], t))[1..] == Armed(ts[1..], t);
    }
  }

  /** Intervals are positive, so a re-armed deadline lies strictly after `now`. */
  lemma FireCountsDown(cfg: Config, d: State, now: int)
    requires Watched(d) && d.timers != [] && d.timers[0].deadline <= now
    ensures Due(Fire(cfg, d, now).timers, now) < Due(d.timers, now)
  {
    var t := d.timers[0];
    var d1 := d.(timers := d.timers[1..]);
    if t.index in d.table.dialogs && t.kind != Timeout {
      var g := d.table.dialogs[t.index];
      assert Guarded(g, d.timers, d.clock, t.index);
      if t.kind == RetransmitInvite { ResendCountsNone(cfg, d1, t, InviteMsg(cfg, t.index), g.retransmitMs * 2, now); }
      else { ResendCountsNone(cfg, d1, t, ByeMsg(cfg, t.index), Min(g.retransmitMs * 2, T2_MS), now); }
    }
  }

  lemma ResendCountsNone(cfg: Config, d: State, t: Timer, r: Request, interval: int, now: int)
    requires t.index in d.table.dialogs && interval > 0
    ensures Due(Resend(cfg, d, t, r, interval, now).timers, now) == Due(d.timers, now)
  {
    DueArmed(d.timers, Timer(now + interval, t.kind, t.index), now);
  }
}
