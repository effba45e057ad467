/** The retransmission schedule: every live dialog keeps its deadline armed, so no dialog outlives
    it and no dialog sends more than the schedule allows, however late the timers fire. */
module DriverTimers {
  import opened SipMessages
  import opened DriverModel
  import opened DriverEffects

  predicate Sorted(ts: seq<Timer>) {
    forall p, q :: 0 <= p < q < |ts| ==> ts[p].deadline <= ts[q].deadline
  }

  function Hit(t: Timer, kind: TimerKind, index: int): nat {
    if t.kind == kind && t.index == index then 1 else 0
  }

  /** How many timers of one kind a dialog has armed. */
  function Pending(ts: seq<Timer>, kind: TimerKind, index: int): nat {
    if ts == [] then 0 else Hit(ts[0], kind, index) + Pending(ts[1..], kind, index)
  }

  lemma {:induction false} ArmedMembers(ts: seq<Timer>, t: Timer)
    ensures forall x :: x in Armed(ts, t) <==> x == t || x in ts
  {
    if ts != [] && t.deadline >= ts[0].deadline {
      ArmedMembers(ts[1..], t);
      assert ts == [ts[0]] + ts[1..];
    }
  }

  lemma {:induction false} ArmedSorted(ts: seq<Timer>, t: Timer)
    requires Sorted(ts)
    ensures Sorted(Armed(ts, t))
  {
    if ts != [] && t.deadline >= ts[0].deadline {
      ArmedSorted(ts[1..], t);
      ArmedMembers(ts[1..], t);
      var rest := Armed(ts[1..], t);
      assert forall k :: 0 <= k < |rest| ==> rest[k] in rest;
    }
  }

  lemma {:induction false} ArmedPending(ts: seq<Timer>, t: Timer, kind: TimerKind, index: int)
    ensures Pending(Armed(ts, t), kind, index) == Pending(ts, kind, index) + Hit(t, kind, index)
  {
    if ts == [] || t.deadline < ts[0].deadline {
      assert ([t] + ts)[1..] == ts;
    } else {
      ArmedPending(ts[1..], t, kind, index);
      assert ([ts[0]] + Armed(ts[1..], t))[1..] == Armed(ts[1..], t);
    }
  }

  lemma {:induction false} PendingNone(ts: seq<Timer>, kind: TimerKind, index: int)
    requires forall t :: t in ts ==> t.index != index
    ensures Pending(ts, kind, index) == 0
  {
    if ts != [] {
      assert ts[0] in ts;
      forall t | t in ts[1..] ensures t.index != index { assert t in ts; }
      PendingNone(ts[1..], kind, index);
    }
  }

  /** How many requests of one method a call has put on the wire. */
  function Sent(wire: seq<Request>, verb: Method, call: CallId): nat {
    if wire == [] then 0
    else
      var last := wire[|wire| - 1];
      Sent(wire[..|wire| - 1], verb, call) + (if last.verb == verb && last.callId == call then 1 else 0)
  }

  lemma SentAppend(wire: seq<Request>, r: Request, verb: Method, call: CallId)
    ensures Sent(wire + [r], verb, call)
         == Sent(wire, verb, call) + (if r.verb == verb && r.callId == call then 1 else 0)
  {
    assert (wire + [r])[..|wire|] == wire;
  }

  /** The interval after the n-th INVITE: Timer A doubles from T1. */
  function InviteInterval(n: nat): int {
    if n <= 1 then T1_MS else 2 * InviteInterval(n - 1)
  }

  /** The interval after the m-th BYE: Timer E doubles up to T2. */
  function ByeInterval(m: nat): int {
    if m <= 1 then T1_MS else Min(2 * ByeInterval(m - 1), T2_MS)
  }

  /** The earliest age at which a dialog that sent m BYEs can send the next. */
  function ByeDue(m: nat): int {
    if m <= 1 then T1_MS else ByeDue(m - 1) + ByeInterval(m)
  }

  lemma {:induction false} InviteIntervalGrows(n: nat)
    requires n >= 7
    ensures InviteInterval(n) >= 32_000
  {
    if n > 7 { InviteIntervalGrows(n - 1); }
  }

  lemma {:induction false} ByeDueGrows(m: nat)
    requires m >= 11
    ensures ByeInterval(m) == T2_MS && ByeDue(m) >= 35_500
  {
    if m > 11 { ByeDueGrows(m - 1); } else {
      assert ByeInterval(4) == 4_000 && ByeDue(4) == 7_500;
      assert ByeInterval(7) == 4_000 && ByeDue(7) == 19_500;
      assert ByeInterval(10) == 4_000 && ByeDue(10) == 31_500;
    }
  }

  const MAX_INVITES := 7
  const MAX_BYES := 11

  /** What the schedule says of one live dialog, given what it sent and what is armed. */
  ghost predicate Schedule(g: Dialog, invites: nat, byes: nat, ts: seq<Timer>, clock: int, i: int) {
    && g.inviteAt <= clock
    && Timer(g.inviteAt + TIMER_B_MS, Timeout, i) in ts
    && match g.phase
       case Calling =>
         && invites >= 1 && byes == 0 && g.retransmitMs == InviteInterval(invites)
         && Pending(ts, RetransmitInvite, i) == 1 && Pending(ts, RetransmitBye, i) == 0
         && forall t :: t in ts && t.kind == RetransmitInvite && t.index == i ==>
              t.deadline >= g.inviteAt + 2 * g.retransmitMs - T1_MS
       case ByeSent =>
         && byes >= 1 && g.retransmitMs == ByeInterval(byes)
         && Pending(ts, RetransmitBye, i) == 1
         && forall t :: t in ts && t.kind == RetransmitBye && t.index == i ==>
              t.deadline >= g.inviteAt + ByeDue(byes)
  }

  function Invites(cfg: Config, d: State, i: int): nat { Sent(d.sock.wire, Invite, CallOf(cfg, i)) }
  function Byes(cfg: Config, d: State, i: int): nat { Sent(d.sock.wire, Bye, CallOf(cfg, i)) }

  ghost predicate OnSchedule(cfg: Config, d: State, i: int)
    requires i in d.table.dialogs
  {
    Schedule(d.table.dialogs[i], Invites(cfg, d, i), Byes(cfg, d, i), d.timers, d.clock, i)
  }

  /** No dialog, live or finished, has sent more than its schedule allows. */
  ghost predicate WithinBudget(cfg: Config, d: State, i: int) {
    && Invites(cfg, d, i) <= MAX_INVITES && Byes(cfg, d, i) <= MAX_BYES
    && (Fresh(cfg, d, i) ==> Unused(cfg, d, i))
  }

  ghost predicate Unused(cfg: Config, d: State, i: int) {
    && Invites(cfg, d, i) == 0 && Byes(cfg, d, i) == 0
    && forall t :: t in d.timers ==> t.index != i
  }

  ghost predicate Timed(cfg: Config, d: State) {
    && Sorted(d.timers)
    && (forall i :: i in d.table.dialogs ==> OnSchedule(cfg, d, i))
    && (forall i :: WithinBudget(cfg, d, i))
  }

  /** `b` differs from `a` only in what concerns dialog `i`. */
  ghost predicate Frame(cfg: Config, a: State, b: State, i: int) {
    && a.clock <= b.clock
    && (forall j :: j != i && j in a.table.dialogs ==>
          j in b.table.dialogs && b.table.dialogs[j] == a.table.dialogs[j])
    && (forall j :: j != i && j in b.table.dialogs ==> j in a.table.dialogs)
    && (forall j :: j != i ==> (CallOf(cfg, j) in a.table.done <==> CallOf(cfg, j) in b.table.done))
    && (forall t: Timer :: t.index != i ==> (t in a.timers <==> t in b.timers))
    && (forall j, k :: j != i ==> Pending(a.timers, k, j) == Pending(b.timers, k, j))
    && (forall j :: j != i ==> SameSends(cfg, a.sock.wire, b.sock.wire, j))
  }

  ghost predicate SameSends(cfg: Config, v: seq<Request>, w: seq<Request>, j: int) {
    && Sent(v, Invite, CallOf(cfg, j)) == Sent(w, Invite, CallOf(cfg, j))
    && Sent(v, Bye, CallOf(cfg, j)) == Sent(w, Bye, CallOf(cfg, j))
  }

  lemma FrameTrans(cfg: Config, a: State, b: State, c: State, i: int)
    requires Frame(cfg, a, b, i) && Frame(cfg, b, c, i)
    ensures Frame(cfg, a, c, i)
  {
    forall j | j != i ensures SameSends(cfg, a.sock.wire, c.sock.wire, j) {
      assert SameSends(cfg, a.sock.wire, b.sock.wire, j) && SameSends(cfg, b.sock.wire, c.sock.wire, j);
    }
  }

  lemma FinishFrame(cfg: Config, d: State, i: int, o: Outcome)
    ensures Frame(cfg, d, Finish(cfg, d, i, o), i)
  {}

  lemma TransmitFrame(cfg: Config, d: State, r: Request, i: int)
    requires r.callId == CallOf(cfg, i) || r.verb == Ack
    ensures Frame(cfg, d, Transmit(cfg, d, r), i)
    ensures r.verb == Ack ==> SameSends(cfg, d.sock.wire, Transmit(cfg, d, r).sock.wire, i)
  {
    forall j | j != i || r.verb == Ack
      ensures SameSends(cfg, d.sock.wire, Transmit(cfg, d, r).sock.wire, j)
    {
      SentAppend(d.sock.wire, r, Invite, CallOf(cfg, j));
      SentAppend(d.sock.wire, r, Bye, CallOf(cfg, j));
    }
  }

  lemma SendFrame(cfg: Config, d: State, r: Request, i: int)
    requires r.callId == CallOf(cfg, i)
    ensures Frame(cfg, d, Send(cfg, d, r, i), i)
  {
    TransmitFrame(cfg, d, r, i);
    FinishFrame(cfg, Transmit(cfg, d, r), i, TransportError);
    FrameTrans(cfg, d, Transmit(cfg, d, r), Finish(cfg, Transmit(cfg, d, r), i, TransportError), i);
  }

  lemma ArmFrame(cfg: Config, d: State, deadline: int, kind: TimerKind, i: int)
    ensures Frame(cfg, d, Arm(d, deadline, kind, i), i)
  {
    var t := Timer(deadline, kind, i);
    ArmedMembers(d.timers, t);
    forall j, k ensures Pending(Armed(d.timers, t), k, j) == Pending(d.timers, k, j) + Hit(t, k, j) {
      ArmedPending(d.timers, t, k, j);
    }
  }

  lemma PopFrame(cfg: Config, d: State)
    requires d.timers != []
    ensures Frame(cfg, d, d.(timers := d.timers[1..]), d.timers[0].index)
  {
    assert d.timers == [d.timers[0]] + d.timers[1..];
  }

  /** What is left to show of a step that only touched dialog `i`. */
  ghost predicate Settled(cfg: Config, d: State, i: int) {
    && Sorted(d.timers)
    && (i in d.table.dialogs ==> OnSchedule(cfg, d, i))
    && WithinBudget(cfg, d, i)
  }

  lemma FrameTimed(cfg: Config, a: State, b: State, i: int)
    requires Timed(cfg, a) && Frame(cfg, a, b, i) && Settled(cfg, b, i)
    ensures Timed(cfg, b)
  {
    forall j | j != i ensures WithinBudget(cfg, b, j) {
      assert WithinBudget(cfg, a, j);
      assert SameSends(cfg, a.sock.wire, b.sock.wire, j);
    }
    forall j | j in b.table.dialogs && j != i ensures OnSchedule(cfg, b, j) {
      assert OnSchedule(cfg, a, j);
      assert SameSends(cfg, a.sock.wire, b.sock.wire, j);
    }
  }

  /** The two timers a transaction arms. */
  function Paired(ts: seq<Timer>, kind: TimerKind, now: int, i: int): seq<Timer> {
    Armed(Armed(ts, Timer(now + T1_MS, kind, i)), Timer(now + TIMER_B_MS, Timeout, i))
  }

  lemma PairedFacts(ts: seq<Timer>, kind: TimerKind, now: int, i: int)
    requires Sorted(ts) && kind != Timeout
    ensures Sorted(Paired(ts, kind, now, i))
    ensures forall t :: t in Paired(ts, kind, now, i) <==>
              t in ts || t == Timer(now + T1_MS, kind, i) || t == Timer(now + TIMER_B_MS, Timeout, i)
    ensures Pending(Paired(ts, kind, now, i), kind, i) == Pending(ts, kind, i) + 1
    ensures forall k :: k != kind && k != Timeout ==>
              Pending(Paired(ts, kind, now, i), k, i) == Pending(ts, k, i)
  {
    var t1 := Timer(now + T1_MS, kind, i);
    var t2 := Timer(now + TIMER_B_MS, Timeout, i);
    ArmedMembers(ts, t1); ArmedMembers(Armed(ts, t1), t2);
    ArmedSorted(ts, t1); ArmedSorted(Armed(ts, t1), t2);
    forall k ensures Pending(Paired(ts, kind, now, i), k, i) == Pending(ts, k, i) + Hit(t1, k, i) + Hit(t2, k, i) {
      ArmedPending(ts, t1, k, i); ArmedPending(Armed(ts, t1), t2, k, i);
    }
  }

  lemma PairedFrame(cfg: Config, d: State, kind: TimerKind, now: int, i: int)
    ensures Frame(cfg, d, d.(timers := Paired(d.timers, kind, now, i)), i)
  {
    var d1 := Arm(d, now + T1_MS, kind, i);
    ArmFrame(cfg, d, now + T1_MS, kind, i);
    ArmFrame(cfg, d1, now + TIMER_B_MS, Timeout, i);
    FrameTrans(cfg, d, d1, Arm(d1, now + TIMER_B_MS, Timeout, i), i);
  }

  lemma {:induction false} PendingKind(ts: seq<Timer>, kind: TimerKind, index: int)
    requires Pending(ts, kind, index) == 0
    ensures forall t :: t in ts ==> !(t.kind == kind && t.index == index)
  {
    if ts != [] {
      PendingKind(ts[1..], kind, index);
      assert ts == [ts[0]] + ts[1..];
    }
  }

  /** A new dialog's schedule: one INVITE sent, Timers A and B armed. */
  lemma NewSchedule(g: Dialog, ts: seq<Timer>, now: int, i: int)
    requires Sorted(ts) && forall t :: t in ts ==> t.index != i
    requires g.phase == Calling && g.inviteAt == now && g.retransmitMs == T1_MS
    ensures Schedule(g, 1, 0, Paired(ts, RetransmitInvite, now, i), now, i)
  {
    PairedFacts(ts, RetransmitInvite, now, i);
    PendingNone(ts, RetransmitInvite, i);
    PendingNone(ts, RetransmitBye, i);
  }

  /** An established dialog's schedule: one BYE sent, Timers E and F armed, Timer B kept. */
  lemma ByeSchedule(g: Dialog, n: nat, ts: seq<Timer>, clock: int, at: Readings, i: int)
    requires Sorted(ts) && Schedule(g, n, 0, ts, clock, i) && g.phase == Calling
    requires clock <= at.first <= at.second <= at.third
    ensures Schedule(g.(phase := ByeSent, retransmitMs := T1_MS, byeAt := at.second), n, 1,
                     Paired(ts, RetransmitBye, at.third, i), at.third, i)
  {
    PairedFacts(ts, RetransmitBye, at.third, i);
    PendingKind(ts, RetransmitBye, i);
  }

  lemma SendCounts(cfg: Config, d: State, r: Request, i: int)
    requires r.callId == CallOf(cfg, i)
    ensures var w := Transmit(cfg, d, r).sock.wire;
            var ok := if SendSucceeds(cfg, d) then 1 else 0;
            && Sent(w, Invite, CallOf(cfg, i)) == Invites(cfg, d, i) + (if r.verb == Invite then ok else 0)
            && Sent(w, Bye, CallOf(cfg, i)) == Byes(cfg, d, i) + (if r.verb == Bye then ok else 0)
  {
    SentAppend(d.sock.wire, r, Invite, CallOf(cfg, i));
    SentAppend(d.sock.wire, r, Bye, CallOf(cfg, i));
  }

  lemma AdmitFrame(cfg: Config, d: State, i: int, now: int)
    requires d.clock <= now
    ensures Frame(cfg, d, Admit(cfg, d, i, now).(clock := now), i)
  {}

  lemma OfferFrame(cfg: Config, d: State, i: int, now: int)
    requires d.clock <= now
    ensures Frame(cfg, d, Offer(cfg, d, i, now).(clock := now), i)
  {
    var d1 := Admit(cfg, d, i, now).(clock := now);
    var d2 := Send(cfg, d1, InviteMsg(cfg, i), i);
    if d.table.active < cfg.maxActive {
      AdmitFrame(cfg, d, i, now);
      SendFrame(cfg, d1, InviteMsg(cfg, i), i);
      FrameTrans(cfg, d, d1, d2, i);
      if SendSucceeds(cfg, d1) {
        PairedFrame(cfg, d2, RetransmitInvite, now, i);
        FrameTrans(cfg, d, d2, d2.(timers := Paired(d2.timers, RetransmitInvite, now, i)), i);
      }
    }
  }

  lemma LiveSettled(cfg: Config, d: State, i: int, n: nat, m: nat)
    requires i in d.table.dialogs && n <= MAX_INVITES && m <= MAX_BYES
    requires n == Invites(cfg, d, i) && m == Byes(cfg, d, i) && Sorted(d.timers)
    requires Schedule(d.table.dialogs[i], n, m, d.timers, d.clock, i)
    ensures Settled(cfg, d, i)
  {}

  /** The INVITE of a newly entered dialog is sent and its timers are armed. */
  lemma LaunchedSettled(cfg: Config, d: State, i: int)
    requires Sorted(d.timers) && i in d.table.dialogs
    requires Unused(cfg, d, i) && SendSucceeds(cfg, d)
    requires var g := d.table.dialogs[i];
             g.phase == Calling && g.inviteAt == d.clock && g.retransmitMs == T1_MS
    ensures Settled(cfg, Transmit(cfg, d, InviteMsg(cfg, i)).(timers := Paired(d.timers, RetransmitInvite, d.clock, i)), i)
  {
    NewSchedule(d.table.dialogs[i], d.timers, d.clock, i);
    PairedFacts(d.timers, RetransmitInvite, d.clock, i);
    SendCounts(cfg, d, InviteMsg(cfg, i), i);
    LiveSettled(cfg, Transmit(cfg, d, InviteMsg(cfg, i)).(timers := Paired(d.timers, RetransmitInvite, d.clock, i)), i, 1, 0);
  }

  lemma OfferSettled(cfg: Config, d: State, i: int, now: int)
    requires Sorted(d.timers)
    requires Fresh(cfg, d, i) && WithinBudget(cfg, d, i)
    ensures Settled(cfg, Offer(cfg, d, i, now).(clock := now), i)
  {
    if d.table.active < cfg.maxActive {
      var d1 := Admit(cfg, d, i, now).(clock := now);
      if SendSucceeds(cfg, d1) {
        LaunchedSettled(cfg, d1, i);
      } else {
        FailedSettled(cfg, d1, InviteMsg(cfg, i), i, now);
      }
    }
  }

  lemma LaunchByeFrame(cfg: Config, d: State, i: int, now: int)
    ensures Frame(cfg, d, LaunchBye(cfg, d, i, now), i)
  {
    var d1 := Send(cfg, d, ByeMsg(cfg, i), i);
    SendFrame(cfg, d, ByeMsg(cfg, i), i);
    if SendSucceeds(cfg, d) {
      PairedFrame(cfg, d1, RetransmitBye, now, i);
      FrameTrans(cfg, d, d1, d1.(timers := Paired(d1.timers, RetransmitBye, now, i)), i);
    }
  }

  lemma EstablishFrame(cfg: Config, d: State, i: int, at: Readings)
    requires i in d.table.dialogs
    ensures Frame(cfg, d, Establish(cfg, d, i, at), i)
  {
    var d1 := MarkEstablished(d, i, at);
    var d2 := Send(cfg, d1, AckMsg(cfg, i), i);
    assert Frame(cfg, d, d1, i);
    SendFrame(cfg, d1, AckMsg(cfg, i), i);
    FrameTrans(cfg, d, d1, d2, i);
    if SendSucceeds(cfg, d1) {
      LaunchByeFrame(cfg, d2, i, at.third);
      FrameTrans(cfg, d, d2, LaunchBye(cfg, d2, i, at.third), i);
    }
  }

  /** A state in which dialog `i` is over and within its budget needs nothing more. */
  lemma OverSettled(cfg: Config, d: State, i: int)
    requires Sorted(d.timers)
    requires i !in d.table.dialogs && CallOf(cfg, i) in d.table.done
    requires Invites(cfg, d, i) <= MAX_INVITES && Byes(cfg, d, i) <= MAX_BYES
    ensures Settled(cfg, d, i)
  {}

  lemma LaunchByeSettled(cfg: Config, d: State, i: int, g: Dialog, clock: int, at: Readings)
    requires Sorted(d.timers) && i in d.table.dialogs
    requires g.phase == Calling && Schedule(g, Invites(cfg, d, i), 0, d.timers, clock, i)
    requires d.table.dialogs[i] == g.(phase := ByeSent, retransmitMs := T1_MS, byeAt := at.second)
    requires Invites(cfg, d, i) <= MAX_INVITES && Byes(cfg, d, i) == 0
    requires clock <= at.first <= at.second <= at.third
    ensures Settled(cfg, LaunchBye(cfg, d, i, at.third).(clock := at.third), i)
  {
    SendCounts(cfg, d, ByeMsg(cfg, i), i);
    var d' := LaunchBye(cfg, d, i, at.third).(clock := at.third);
    if SendSucceeds(cfg, d) {
      ByeSchedule(g, Invites(cfg, d, i), d.timers, clock, at, i);
      PairedFacts(d.timers, RetransmitBye, at.third, i);
    } else {
      OverSettled(cfg, d', i);
    }
  }

  lemma EstablishSettled(cfg: Config, d: State, i: int, at: Readings)
    requires Sorted(d.timers)
    requires i in d.table.dialogs && d.table.dialogs[i].phase == Calling
    requires OnSchedule(cfg, d, i) && WithinBudget(cfg, d, i)
    requires d.clock <= at.first <= at.second <= at.third
    ensures Settled(cfg, Establish(cfg, d, i, at).(clock := at.third), i)
  {
    var d1 := MarkEstablished(d, i, at);
    var d2 := Send(cfg, d1, AckMsg(cfg, i), i);
    SendCounts(cfg, d1, AckMsg(cfg, i), i);
    if SendSucceeds(cfg, d1) {
      LaunchByeSettled(cfg, d2, i, d.table.dialogs[i], d.clock, at);
    } else {
      OverSettled(cfg, d2.(clock := at.third), i);
    }
  }

  lemma FinishSettled(cfg: Config, d: State, i: int, o: Outcome, clock: int)
    requires Sorted(d.timers) && i in d.table.dialogs
    requires Invites(cfg, d, i) <= MAX_INVITES && Byes(cfg, d, i) <= MAX_BYES
    ensures Settled(cfg, Finish(cfg, d, i, o).(clock := clock), i)
  {
    OverSettled(cfg, Finish(cfg, d, i, o).(clock := clock), i);
  }

  lemma RefusalFrame(cfg: Config, d: State, i: int, r: Response)
    requires i in d.table.dialogs
    ensures Frame(cfg, d, TakeRefusal(cfg, d, i, r), i)
  {
    var d1 := d.(stats := CountFinal(d.stats, d.table.dialogs[i].counted, r.code));
    var d2 := Transmit(cfg, d1, FailureAckFor(cfg.seed, cfg.runId, i, r.toTag));
    var o := if r.code == 503 then AdmissionRefused else Rejected;
    TransmitFrame(cfg, d1, FailureAckFor(cfg.seed, cfg.runId, i, r.toTag), i);
    FrameTrans(cfg, d, d1, d2, i);
    FinishFrame(cfg, d2, i, o);
    FrameTrans(cfg, d, d2, Finish(cfg, d2, i, o), i);
  }

  lemma CallingFrame(cfg: Config, d: State, i: int, r: Response, at: Readings)
    requires i in d.table.dialogs
    ensures Frame(cfg, d, HandleCalling(cfg, d, i, r, at), i)
  {
    FinishFrame(cfg, d, i, InvalidMessage);
    EstablishFrame(cfg, d, i, at);
    RefusalFrame(cfg, d, i, r);
  }

  lemma RefusalSettled(cfg: Config, d: State, i: int, r: Response, clock: int)
    requires Sorted(d.timers)
    requires i in d.table.dialogs && WithinBudget(cfg, d, i)
    ensures Settled(cfg, TakeRefusal(cfg, d, i, r).(clock := clock), i)
  {
    var d1 := d.(stats := CountFinal(d.stats, d.table.dialogs[i].counted, r.code));
    var ack := FailureAckFor(cfg.seed, cfg.runId, i, r.toTag);
    SendCounts(cfg, d1, ack, i);
    FinishSettled(cfg, Transmit(cfg, d1, ack), i,
                  if r.code == 503 then AdmissionRefused else Rejected, clock);
  }

  lemma TryingSettled(cfg: Config, d: State, i: int, clock: int)
    requires Sorted(d.timers)
    requires i in d.table.dialogs && d.clock <= clock
    requires OnSchedule(cfg, d, i) && WithinBudget(cfg, d, i)
    ensures Settled(cfg, TakeTrying(d, i).(clock := clock), i)
  {}

  lemma CallingSettled(cfg: Config, d: State, i: int, r: Response, at: Readings)
    requires Sorted(d.timers)
    requires i in d.table.dialogs && d.table.dialogs[i].phase == Calling
    requires OnSchedule(cfg, d, i) && WithinBudget(cfg, d, i)
    requires d.clock <= at.first <= at.second <= at.third
    ensures Settled(cfg, HandleCalling(cfg, d, i, r, at).(clock := at.third), i)
  {
    if Objectionable(cfg, d.table.dialogs[i], i, r) {
      FinishSettled(cfg, d, i, InvalidMessage, at.third);
    } else if r.code < 200 {
      TryingSettled(cfg, d, i, at.third);
    } else if r.code == 200 {
      EstablishSettled(cfg, d, i, at);
    } else {
      RefusalSettled(cfg, d, i, r, at.third);
    }
  }

  lemma ByeFinalFrame(cfg: Config, d: State, i: int, code: int, now: int)
    requires i in d.table.dialogs
    ensures Frame(cfg, d, TakeByeFinal(cfg, d, i, code, now), i)
  {
    var g := d.table.dialogs[i];
    var s := CountFinal(d.stats, g.counted, code);
    FinishFrame(cfg, d.(stats := s), i, Rejected);
    FinishFrame(cfg, d.(stats := CountTeardown(s, g.counted, now - g.byeAt)), i, Completed);
  }

  lemma ByeFrame(cfg: Config, d: State, i: int, r: Response, at: Readings)
    requires i in d.table.dialogs
    ensures Frame(cfg, d, HandleBye(cfg, d, i, r, at), i)
  {
    if r.cseq == INVITE_CSEQ {
      var d1 := d.(stats := CountRetransmittedResponse(d.stats, d.table.dialogs[i].counted));
      SendFrame(cfg, d1, AckMsg(cfg, i), i);
      FrameTrans(cfg, d, d1, Send(cfg, d1, AckMsg(cfg, i), i), i);
    } else {
      FinishFrame(cfg, d, i, InvalidMessage);
      ByeFinalFrame(cfg, d, i, r.code, at.first);
    }
  }

  lemma ByeFinalSettled(cfg: Config, d: State, i: int, code: int, now: int, clock: int)
    requires Sorted(d.timers) && i in d.table.dialogs
    requires WithinBudget(cfg, d, i)
    ensures Settled(cfg, TakeByeFinal(cfg, d, i, code, now).(clock := clock), i)
  {
    var g := d.table.dialogs[i];
    var s := CountFinal(d.stats, g.counted, code);
    var s2 := CountTeardown(s, g.counted, now - g.byeAt);
    FinishSettled(cfg, d.(stats := s), i, Rejected, clock);
    FinishSettled(cfg, d.(stats := s2), i, Completed, clock);
  }

  lemma AckAgainSettled(cfg: Config, d: State, i: int, clock: int)
    requires Sorted(d.timers)
    requires i in d.table.dialogs && OnSchedule(cfg, d, i) && WithinBudget(cfg, d, i) && d.clock <= clock
    ensures Settled(cfg, Send(cfg, d, AckMsg(cfg, i), i).(clock := clock), i)
  {
    SendCounts(cfg, d, AckMsg(cfg, i), i);
    if !SendSucceeds(cfg, d) {
      FinishSettled(cfg, Transmit(cfg, d, AckMsg(cfg, i)), i, TransportError, clock);
    }
  }

  lemma ByeSettled(cfg: Config, d: State, i: int, r: Response, at: Readings)
    requires Sorted(d.timers)
    requires i in d.table.dialogs && d.table.dialogs[i].phase == ByeSent
    requires OnSchedule(cfg, d, i) && WithinBudget(cfg, d, i)
    requires d.clock <= at.first <= at.second <= at.third
    ensures Settled(cfg, HandleBye(cfg, d, i, r, at).(clock := at.third), i)
  {
    if r.cseq == INVITE_CSEQ {
      AckAgainSettled(cfg, d.(stats := CountRetransmittedResponse(d.stats, d.table.dialogs[i].counted)),
                      i, at.third);
    } else if !MatchesBye(cfg, i, r) || r.code < 200 {
      FinishSettled(cfg, d, i, InvalidMessage, at.third);
    } else {
      ByeFinalSettled(cfg, d, i, r.code, at.first, at.third);
    }
  }

  /** Timer B bounds the head of the heap. */
  lemma HeadBound(ts: seq<Timer>, t: Timer)
    requires Sorted(ts) && t in ts
    ensures ts != [] && ts[0].deadline <= t.deadline
  {}

  /** A due INVITE retransmission: fewer than 7 were sent. */
  lemma InvitesLeft(g: Dialog, n: nat, ts: seq<Timer>, clock: int, now: int, i: int)
    requires Sorted(ts) && ts != [] && Schedule(g, n, 0, ts, clock, i) && g.phase == Calling
    requires ts[0].kind == RetransmitInvite && ts[0].index == i && ts[0].deadline <= now
    ensures n < MAX_INVITES
  {
    HeadBound(ts, Timer(g.inviteAt + TIMER_B_MS, Timeout, i));
    if n >= MAX_INVITES { InviteIntervalGrows(n); assert false; }
  }

  /** Once its head, the dialog's own retransmission of that kind, is popped, the one armed is the only
      one; the other timers are as they were. */
  lemma Rearmed(ts: seq<Timer>, t: Timer)
    requires ts != [] && ts[0].kind == t.kind && ts[0].index == t.index && Pending(ts, t.kind, t.index) == 1
    ensures var us := Armed(ts[1..], t);
            && (forall u :: u in us <==> u == t || u in ts[1..])
            && (forall u :: u in us && u.kind == t.kind && u.index == t.index ==> u == t)
            && Pending(us, t.kind, t.index) == 1
            && (forall k :: k != t.kind ==> Pending(us, k, t.index) == Pending(ts, k, t.index))
  {
    assert ts == [ts[0]] + ts[1..];
    PendingKind(ts[1..], t.kind, t.index);
    ArmedMembers(ts[1..], t);
    forall k ensures Pending(Armed(ts[1..], t), k, t.index) == Pending(ts[1..], k, t.index) + Hit(t, k, t.index) {
      ArmedPending(ts[1..], t, k, t.index);
    }
  }

  lemma InviteAgain(g: Dialog, n: nat, ts: seq<Timer>, clock: int, now: int, i: int)
    requires Sorted(ts) && ts != [] && Schedule(g, n, 0, ts, clock, i) && g.phase == Calling
    requires ts[0].kind == RetransmitInvite && ts[0].index == i && ts[0].deadline <= now && clock <= now
    ensures n < MAX_INVITES
    ensures Schedule(g.(retransmitMs := g.retransmitMs * 2), n + 1, 0,
                     Armed(ts[1..], Timer(now + g.retransmitMs * 2, RetransmitInvite, i)), now, i)
  {
    InvitesLeft(g, n, ts, clock, now, i);
    Rearmed(ts, Timer(now + g.retransmitMs * 2, RetransmitInvite, i));
    OthersStay(ts, Timer(now + g.retransmitMs * 2, RetransmitInvite, i), Timer(g.inviteAt + TIMER_B_MS, Timeout, i));
  }

  lemma OthersStay(ts: seq<Timer>, t: Timer, u: Timer)
    requires ts != [] && u in ts && u != ts[0]
    ensures u in Armed(ts[1..], t)
  {
    assert ts == [ts[0]] + ts[1..];
    ArmedMembers(ts[1..], t);
  }

  /** A due BYE retransmission: fewer than 11 were sent. */
  lemma ByesLeft(g: Dialog, n: nat, m: nat, ts: seq<Timer>, clock: int, now: int, i: int)
    requires Sorted(ts) && ts != [] && Schedule(g, n, m, ts, clock, i) && g.phase == ByeSent
    requires ts[0].kind == RetransmitBye && ts[0].index == i && ts[0].deadline <= now
    ensures m < MAX_BYES
  {
    HeadBound(ts, Timer(g.inviteAt + TIMER_B_MS, Timeout, i));
    if m >= MAX_BYES { ByeDueGrows(m); assert false; }
  }

  lemma ByeAgain(g: Dialog, n: nat, m: nat, ts: seq<Timer>, clock: int, now: int, i: int)
    requires Sorted(ts) && ts != [] && Schedule(g, n, m, ts, clock, i) && g.phase == ByeSent
    requires ts[0].kind == RetransmitBye && ts[0].index == i && ts[0].deadline <= now && clock <= now
    ensures m < MAX_BYES
    ensures var interval := Min(g.retransmitMs * 2, T2_MS);
            Schedule(g.(retransmitMs := interval), n, m + 1,
                     Armed(ts[1..], Timer(now + interval, RetransmitBye, i)), now, i)
  {
    ByesLeft(g, n, m, ts, clock, now, i);
    var t := Timer(now + Min(g.retransmitMs * 2, T2_MS), RetransmitBye, i);
    Rearmed(ts, t);
    OthersStay(ts, t, Timer(g.inviteAt + TIMER_B_MS, Timeout, i));
  }

  lemma ReplaceFrame(cfg: Config, d: State, i: int, g: Dialog, s: Stats)
    ensures Frame(cfg, d, d.(table := Replace(d.table, i, g), stats := s), i)
  {}

  lemma ResendFrame(cfg: Config, d: State, t: Timer, r: Request, interval: int, now: int)
    requires t.index in d.table.dialogs && r.callId == CallOf(cfg, t.index)
    ensures Frame(cfg, d, Resend(cfg, d, t, r, interval, now), t.index)
  {
    var i := t.index;
    var d1 := Send(cfg, d, r, i);
    SendFrame(cfg, d, r, i);
    if SendSucceeds(cfg, d) {
      var g := d.table.dialogs[i];
      var d2 := d1.(table := Replace(d1.table, i, g.(retransmitMs := interval)),
                    stats := CountRetransmittedRequest(d1.stats, g.counted));
      ReplaceFrame(cfg, d1, i, g.(retransmitMs := interval), d2.stats);
      FrameTrans(cfg, d, d1, d2, i);
      ArmFrame(cfg, d2, now + interval, t.kind, i);
      FrameTrans(cfg, d, d2, Arm(d2, now + interval, t.kind, i), i);
    }
  }

  lemma FireFrame(cfg: Config, d: State, now: int)
    requires d.timers != []
    ensures Frame(cfg, d, Fire(cfg, d, now), d.timers[0].index)
  {
    var t := d.timers[0];
    var d1 := d.(timers := d.timers[1..]);
    PopFrame(cfg, d);
    if t.index in d1.table.dialogs {
      var g := d1.table.dialogs[t.index];
      FinishFrame(cfg, d1, t.index, TransactionTimeout);
      ResendFrame(cfg, d1, t, InviteMsg(cfg, t.index), g.retransmitMs * 2, now);
      ResendFrame(cfg, d1, t, ByeMsg(cfg, t.index), Min(g.retransmitMs * 2, T2_MS), now);
      FrameTrans(cfg, d, d1, Fire(cfg, d, now), t.index);
    }
  }

  /** The books of dialog `t.index` allow one more request `r` and one more timer `t'`. */
  ghost predicate MayResend(cfg: Config, d: State, t: Timer, r: Request, g: Dialog, now: int) {
    var n := Invites(cfg, d, t.index) + (if r.verb == Invite then 1 else 0);
    var m := Byes(cfg, d, t.index) + (if r.verb == Bye then 1 else 0);
    && n <= MAX_INVITES && m <= MAX_BYES
    && Schedule(g, n, m, Armed(d.timers, t), now, t.index)
  }

  lemma ResentSettled(cfg: Config, d: State, d1: State, t: Timer, r: Request)
    requires Sorted(d.timers) && r.callId == CallOf(cfg, t.index) && r.verb != Ack
    requires SendSucceeds(cfg, d) && t.index in d1.table.dialogs
    requires MayResend(cfg, d, t, r, d1.table.dialogs[t.index], d1.clock)
    requires d1.timers == Armed(d.timers, t) && d1.sock == Transmit(cfg, d, r).sock
    ensures Settled(cfg, d1, t.index)
  {
    SendCounts(cfg, d, r, t.index);
    ArmedSorted(d.timers, t);
    LiveSettled(cfg, d1, t.index, Invites(cfg, d1, t.index), Byes(cfg, d1, t.index));
  }

  lemma FailedSettled(cfg: Config, d: State, r: Request, i: int, clock: int)
    requires Sorted(d.timers) && i in d.table.dialogs
    requires r.callId == CallOf(cfg, i) && !SendSucceeds(cfg, d)
    requires Invites(cfg, d, i) <= MAX_INVITES && Byes(cfg, d, i) <= MAX_BYES
    ensures Settled(cfg, Send(cfg, d, r, i).(clock := clock), i)
  {
    SendCounts(cfg, d, r, i);
    FinishSettled(cfg, Transmit(cfg, d, r), i, TransportError, clock);
  }

  lemma ResendSettled(cfg: Config, d: State, t: Timer, r: Request, interval: int, now: int)
    requires Sorted(d.timers)
    requires t.index in d.table.dialogs && r.callId == CallOf(cfg, t.index) && r.verb != Ack
    requires MayResend(cfg, d, t.(deadline := now + interval), r,
                       d.table.dialogs[t.index].(retransmitMs := interval), now)
    ensures Settled(cfg, Resend(cfg, d, t, r, interval, now).(clock := now), t.index)
  {
    var t' := t.(deadline := now + interval);
    if SendSucceeds(cfg, d) {
      var g := d.table.dialogs[t.index];
      var d1 := Transmit(cfg, d, r);
      var d2 := State(Replace(d1.table, t.index, g.(retransmitMs := interval)), Armed(d1.timers, t'), d1.counting,
                      CountRetransmittedRequest(d1.stats, g.counted), d1.sock, now);
      ResentSettled(cfg, d, d2, t', r);
    } else {
      FailedSettled(cfg, d, r, t.index, now);
    }
  }

  lemma MayResendInvite(cfg: Config, d: State, now: int)
    requires d.timers != [] && Sorted(d.timers)
    requires var t := d.timers[0]; var i := t.index;
             && t.kind == RetransmitInvite && i in d.table.dialogs && t.deadline <= now && d.clock <= now
             && d.table.dialogs[i].phase == Calling && OnSchedule(cfg, d, i) && WithinBudget(cfg, d, i)
    ensures var t := d.timers[0]; var g := d.table.dialogs[t.index];
            MayResend(cfg, d.(timers := d.timers[1..]), t.(deadline := now + g.retransmitMs * 2), InviteMsg(cfg, t.index),
                      g.(retransmitMs := g.retransmitMs * 2), now)
  {
    var t := d.timers[0];
    var g := d.table.dialogs[t.index];
    assert t.(deadline := now + g.retransmitMs * 2) == Timer(now + g.retransmitMs * 2, RetransmitInvite, t.index);
    InviteAgain(g, Invites(cfg, d, t.index), d.timers, d.clock, now, t.index);
  }

  lemma ResendInviteSettled(cfg: Config, d: State, now: int)
    requires d.timers != [] && Sorted(d.timers)
    requires var t := d.timers[0]; var i := t.index;
             && t.kind == RetransmitInvite && i in d.table.dialogs && t.deadline <= now && d.clock <= now
             && d.table.dialogs[i].phase == Calling && OnSchedule(cfg, d, i) && WithinBudget(cfg, d, i)
    ensures Settled(cfg, Fire(cfg, d, now).(clock := now), d.timers[0].index)
  {
    var t := d.timers[0];
    var g := d.table.dialogs[t.index];
    MayResendInvite(cfg, d, now);
    ResendSettled(cfg, d.(timers := d.timers[1..]), t, InviteMsg(cfg, t.index), g.retransmitMs * 2, now);
  }

  lemma MayResendBye(cfg: Config, d: State, now: int)
    requires d.timers != [] && Sorted(d.timers)
    requires var t := d.timers[0]; var i := t.index;
             && t.kind == RetransmitBye && i in d.table.dialogs && t.deadline <= now && d.clock <= now
             && d.table.dialogs[i].phase == ByeSent && OnSchedule(cfg, d, i) && WithinBudget(cfg, d, i)
    ensures var t := d.timers[0]; var g := d.table.dialogs[t.index];
            var interval := Min(g.retransmitMs * 2, T2_MS);
            MayResend(cfg, d.(timers := d.timers[1..]), t.(deadline := now + interval), ByeMsg(cfg, t.index),
                      g.(retransmitMs := interval), now)
  {
    var t := d.timers[0];
    var g := d.table.dialogs[t.index];
    var interval := Min(g.retransmitMs * 2, T2_MS);
    assert t.(deadline := now + interval) == Timer(now + interval, RetransmitBye, t.index);
    ByeAgain(g, Invites(cfg, d, t.index), Byes(cfg, d, t.index), d.timers, d.clock, now, t.index);
  }

  lemma ResendByeSettled(cfg: Config, d: State, now: int)
    requires d.timers != [] && Sorted(d.timers)
    requires var t := d.timers[0]; var i := t.index;
             && t.kind == RetransmitBye && i in d.table.dialogs && t.deadline <= now && d.clock <= now
             && d.table.dialogs[i].phase == ByeSent && OnSchedule(cfg, d, i) && WithinBudget(cfg, d, i)
    ensures Settled(cfg, Fire(cfg, d, now).(clock := now), d.timers[0].index)
  {
    var t := d.timers[0];
    MayResendBye(cfg, d, now);
    ResendSettled(cfg, d.(timers := d.timers[1..]), t, ByeMsg(cfg, t.index),
                  Min(d.table.dialogs[t.index].retransmitMs * 2, T2_MS), now);
  }

  /** A timer of the other phase is dropped. */
  lemma StaleSchedule(g: Dialog, n: nat, m: nat, ts: seq<Timer>, clock: int, now: int, i: int)
    requires ts != [] && Schedule(g, n, m, ts, clock, i) && clock <= now
    requires ts[0].kind == (if g.phase == Calling then RetransmitBye else RetransmitInvite)
    ensures Schedule(g, n, m, ts[1..], now, i)
  {
    assert ts == [ts[0]] + ts[1..];
  }

  lemma FireSettled(cfg: Config, d: State, now: int)
    requires d.timers != [] && Sorted(d.timers)
    requires d.timers[0].deadline <= now && d.clock <= now
    requires d.timers[0].index in d.table.dialogs ==> OnSchedule(cfg, d, d.timers[0].index)
    requires WithinBudget(cfg, d, d.timers[0].index)
    ensures Settled(cfg, Fire(cfg, d, now).(clock := now), d.timers[0].index)
  {
    var t := d.timers[0];
    var i := t.index;
    var d1 := d.(timers := d.timers[1..]);
    if i !in d.table.dialogs {
      assert t in d.timers;
    } else if t.kind == Timeout {
      FinishSettled(cfg, d1, i, TransactionTimeout, now);
    } else {
      var g := d.table.dialogs[i];
      if t.kind == RetransmitInvite && g.phase == Calling { ResendInviteSettled(cfg, d, now); }
      else if t.kind == RetransmitBye && g.phase == ByeSent { ResendByeSettled(cfg, d, now); }
      else { StaleSchedule(g, Invites(cfg, d, i), Byes(cfg, d, i), d.timers, d.clock, now, i); }
    }
  }

  /** A stray response touches no dialog: at most an ACK goes out. */
  lemma StrayTimed(cfg: Config, d: State, r: Response, clock: int)
    requires Timed(cfg, d) && d.clock <= clock
    ensures Timed(cfg, HandleStray(cfg, d, r).(clock := clock))
  {
    var d' := HandleStray(cfg, d, r).(clock := clock);
    forall i ensures SameSends(cfg, d.sock.wire, d'.sock.wire, i) {
      if r.callId in d.table.done {
        TransmitFrame(cfg, d.(stats := CountRetransmittedResponse(d.stats, d.counting)),
                      AckMsg(cfg, d.table.done[r.callId]), i);
      }
    }
    forall i ensures WithinBudget(cfg, d', i) {
      assert WithinBudget(cfg, d, i) && SameSends(cfg, d.sock.wire, d'.sock.wire, i);
    }
    forall i | i in d'.table.dialogs ensures OnSchedule(cfg, d', i) {
      assert OnSchedule(cfg, d, i) && SameSends(cfg, d.sock.wire, d'.sock.wire, i);
    }
  }

  lemma StrayFrame(cfg: Config, d: State, r: Response, i: int)
    ensures Frame(cfg, d, HandleStray(cfg, d, r), i)
  {
    forall j ensures SameSends(cfg, d.sock.wire, HandleStray(cfg, d, r).sock.wire, j) {
      if r.callId in d.table.done {
        TransmitFrame(cfg, d.(stats := CountRetransmittedResponse(d.stats, d.counting)),
                      AckMsg(cfg, d.table.done[r.callId]), j);
      }
    }
  }

  /** One event leaves every dialog but its own, and their timers and messages, as they were. */
  lemma NextFrame(cfg: Config, d: State, e: Event)
    requires Linked(d) && Keyed(cfg, d.table) && Enabled(d, e)
    ensures Frame(cfg, d, Next(cfg, d, e), Subject(d, e))
  {
    match e
    case OfferAt(i, now) => OfferFrame(cfg, d, i, now);
    case Arrival(r, at) => ArrivalFrame(cfg, d, r, at);
    case FireAt(now) =>
      FireFrame(cfg, d, now);
      FireKeepsClock(cfg, d, now);
      ClockFrame(cfg, d, Fire(cfg, d, now), d.timers[0].index, now);
    case ExpireOne(i) => FinishFrame(cfg, d, i, CleanupTimeout);
    case StartCounting =>
    case ReadClock(_) =>
  }

  lemma ArrivalFrame(cfg: Config, d: State, r: Response, at: Readings)
    requires Linked(d) && Keyed(cfg, d.table) && d.clock <= at.third
    ensures Frame(cfg, d, Handle(cfg, d, r, at).(clock := at.third), Subject(d, Arrival(r, at)))
  {
    var i := Subject(d, Arrival(r, at));
    if r.callId in d.table.byCallId {
      if d.table.dialogs[i].phase == Calling { CallingFrame(cfg, d, i, r, at); }
      else { ByeFrame(cfg, d, i, r, at); }
    } else {
      StrayFrame(cfg, d, r, i);
    }
    HandleKeepsClock(cfg, d, r, at);
    ClockFrame(cfg, d, Handle(cfg, d, r, at), i, at.third);
  }

  lemma ClockFrame(cfg: Config, a: State, b: State, i: int, clock: int)
    requires Frame(cfg, a, b, i) && b.clock <= clock
    ensures Frame(cfg, a, b.(clock := clock), i)
  {}

  lemma ArrivalTimed(cfg: Config, d: State, r: Response, at: Readings)
    requires Timed(cfg, d) && Linked(d) && d.clock <= at.first <= at.second <= at.third
    ensures Timed(cfg, Handle(cfg, d, r, at).(clock := at.third))
  {
    if r.callId in d.table.byCallId {
      var i := d.table.byCallId[r.callId];
      var d' := Handle(cfg, d, r, at);
      assert OnSchedule(cfg, d, i) && WithinBudget(cfg, d, i);
      if d.table.dialogs[i].phase == Calling {
        CallingFrame(cfg, d, i, r, at);
        CallingSettled(cfg, d, i, r, at);
      } else {
        ByeFrame(cfg, d, i, r, at);
        ByeSettled(cfg, d, i, r, at);
      }
      HandleKeepsClock(cfg, d, r, at);
      ClockFrame(cfg, d, d', i, at.third);
      FrameTimed(cfg, d, d'.(clock := at.third), i);
    } else {
      StrayTimed(cfg, d, r, at.third);
    }
  }

  lemma HandleKeepsClock(cfg: Config, d: State, r: Response, at: Readings)
    requires Linked(d)
    ensures Handle(cfg, d, r, at).clock == d.clock
  {}

  lemma FireKeepsClock(cfg: Config, d: State, now: int)
    requires d.timers != []
    ensures Fire(cfg, d, now).clock == d.clock
  {}

  lemma FireTimed(cfg: Config, d: State, now: int)
    requires Timed(cfg, d) && d.timers != [] && d.timers[0].deadline <= now && d.clock <= now
    ensures Timed(cfg, Fire(cfg, d, now).(clock := now))
  {
    var i := d.timers[0].index;
    assert WithinBudget(cfg, d, i);
    FireFrame(cfg, d, now);
    FireKeepsClock(cfg, d, now);
    ClockFrame(cfg, d, Fire(cfg, d, now), i, now);
    FireSettled(cfg, d, now);
    FrameTimed(cfg, d, Fire(cfg, d, now).(clock := now), i);
  }

  lemma OfferTimed(cfg: Config, d: State, i: int, now: int)
    requires Timed(cfg, d) && Fresh(cfg, d, i) && d.clock <= now
    ensures Timed(cfg, Offer(cfg, d, i, now).(clock := now))
  {
    assert WithinBudget(cfg, d, i);
    OfferFrame(cfg, d, i, now);
    OfferSettled(cfg, d, i, now);
    FrameTimed(cfg, d, Offer(cfg, d, i, now).(clock := now), i);
  }

  lemma ExpireTimed(cfg: Config, d: State, i: int)
    requires Timed(cfg, d) && i in d.table.dialogs
    ensures Timed(cfg, Finish(cfg, d, i, CleanupTimeout))
  {
    assert WithinBudget(cfg, d, i);
    FinishFrame(cfg, d, i, CleanupTimeout);
    FinishSettled(cfg, d, i, CleanupTimeout, d.clock);
    FrameTimed(cfg, d, Finish(cfg, d, i, CleanupTimeout), i);
  }

  lemma IdleTimed(cfg: Config, d: State, counting: bool, now: int)
    requires Timed(cfg, d) && d.clock <= now
    ensures Timed(cfg, d.(counting := counting, clock := now))
  {
    var d' := d.(counting := counting, clock := now);
    assert Frame(cfg, d, d', 0);
    assert WithinBudget(cfg, d, 0);
    FrameTimed(cfg, d, d', 0);
  }

  lemma NextTimed(cfg: Config, d: State, e: Event)
    requires Timed(cfg, d) && Linked(d) && Enabled(d, e) && OffersFresh(cfg, d, e)
    ensures Timed(cfg, Next(cfg, d, e))
  {
    match e
    case OfferAt(i, now) => OfferTimed(cfg, d, i, now);
    case Arrival(r, at) => ArrivalTimed(cfg, d, r, at);
    case FireAt(now) => FireTimed(cfg, d, now);
    case ExpireOne(i) => ExpireTimed(cfg, d, i);
    case StartCounting => IdleTimed(cfg, d, true, d.clock);
    case ReadClock(now) => IdleTimed(cfg, d, d.counting, now);
  }

  /** Over every run that offers each index once: whatever arrives, whichever sends fail and
      however late the timers fire. */
  lemma {:induction false} RunTimed(cfg: Config, start: State, es: seq<Event>, d: State)
    requires IsInitial(start) && Leads(cfg, true, start, es, d)
    ensures Timed(cfg, d)
    decreases |es|
  {
    if es == [] {
      forall i ensures WithinBudget(cfg, d, i) { assert Sent(d.sock.wire, Invite, CallOf(cfg, i)) == 0; }
    } else {
      var last := |es| - 1;
      var m := LeadsLast(cfg, true, start, es, d);
      RunTimed(cfg, start, es[..last], m);
      NextTimed(cfg, m, es[last]);
    }
  }

  /** A call puts at most 7 INVITEs and 11 BYEs on the wire. */
  lemma SendBudget(cfg: Config, start: State, es: seq<Event>, d: State, i: int)
    requires IsInitial(start) && Leads(cfg, true, start, es, d)
    ensures Sent(d.sock.wire, Invite, CallOf(cfg, i)) <= 7
    ensures Sent(d.sock.wire, Bye, CallOf(cfg, i)) <= 11
  {
    RunTimed(cfg, start, es, d);
    assert WithinBudget(cfg, d, i);
  }
}
