/** Which timers each event arms, and the retransmission interval each live dialog has after it. */
module DriverArming {
  import opened SipMessages
  import opened DriverModel
  import opened ResultContract
  import opened DriverLatency
  import opened DriverWire

  /** The `k`-th send of the event gets through. */
  predicate Through(cfg: Config, d: State, k: nat) { d.sock.attempts + k !in cfg.sendFails }

  /** The pair a transaction starts with: its first retransmission after 500 ms and its timeout after
      32 s. */
  function Pair(now: int, kind: TimerKind, i: int): seq<Timer> {
    [Timer(now + 500, kind, i), Timer(now + 32_000, Timeout, i)]
  }

  /** The timers an event arms: a transaction's pair once its request is sent, and the next
      retransmission, after twice the interval and for a BYE after 4 s at most. */
  function ArmedBy(cfg: Config, d: State, e: Event): seq<Timer> {
    var i := Concerns(d, e);
    if e.OfferAt? && d.table.active < cfg.maxActive && Through(cfg, d, 0) then Pair(e.now, RetransmitInvite, i)
    else if Answered(cfg, d, e, Calling) && Through(cfg, d, 0) && Through(cfg, d, 1) then
      Pair(e.at.third, RetransmitBye, i)
    else if DueAgain(d, e, i, Calling) && Through(cfg, d, 0) then
      [Timer(e.now + 2 * d.table.dialogs[i].retransmitMs, RetransmitInvite, i)]
    else if DueAgain(d, e, i, ByeSent) && Through(cfg, d, 0) then
      [Timer(e.now + Sooner(2 * d.table.dialogs[i].retransmitMs, 4_000), RetransmitBye, i)]
    else []
  }

  function Sooner(a: int, b: int): int { if a < b then a else b }

  /** The interval of dialog `i` after the event. */
  function IntervalAfter(cfg: Config, d: State, e: Event, i: int): int {
    if (e.OfferAt? || Answered(cfg, d, e, Calling)) && Concerns(d, e) == i then 500
    else if DueAgain(d, e, i, Calling) then 2 * d.table.dialogs[i].retransmitMs
    else if DueAgain(d, e, i, ByeSent) then Sooner(2 * d.table.dialogs[i].retransmitMs, 4_000)
    else if i in d.table.dialogs then d.table.dialogs[i].retransmitMs
    else 0
  }

  lemma {:induction false} ArmedBag(ts: seq<Timer>, t: Timer)
    ensures multiset(Armed(ts, t)) == multiset(ts) + multiset{t}
  {
    if ts != [] && t.deadline >= ts[0].deadline {
      ArmedBag(ts[1..], t);
      assert ts == [ts[0]] + ts[1..];
    }
  }

  /** All of them put into the heap. */
  function ArmAll(ts: seq<Timer>, armed: seq<Timer>): seq<Timer>
    decreases |armed|
  {
    if armed == [] then ts else ArmAll(Armed(ts, armed[0]), armed[1..])
  }

  lemma {:induction false} ArmAllBag(ts: seq<Timer>, armed: seq<Timer>)
    ensures multiset(ArmAll(ts, armed)) == multiset(ts) + multiset(armed)
    decreases |armed|
  {
    if armed != [] {
      ArmAllBag(Armed(ts, armed[0]), armed[1..]);
      ArmedBag(ts, armed[0]);
      assert armed == [armed[0]] + armed[1..];
    }
  }

  ghost predicate Arms(d: State, armed: seq<Timer>, d': State) { d'.timers == ArmAll(d.timers, armed) }

  lemma OneArmed(ts: seq<Timer>, t: Timer)
    ensures ArmAll(ts, [t]) == Armed(ts, t)
  {
    assert [t][1..] == [];
  }

  lemma PairArmed(ts: seq<Timer>, now: int, kind: TimerKind, i: int)
    ensures ArmAll(ts, Pair(now, kind, i)) == Armed(Armed(ts, Timer(now + T1_MS, kind, i)), Timer(now + TIMER_B_MS, Timeout, i))
  {
    var pair := Pair(now, kind, i);
    assert pair[1..] == [pair[1]];
    OneArmed(Armed(ts, pair[0]), pair[1]);
  }

  lemma SendIdle(cfg: Config, d: State, r: Request, i: int)
    ensures Send(cfg, d, r, i).timers == d.timers
    ensures forall j :: j in Send(cfg, d, r, i).table.dialogs ==>
              j in d.table.dialogs && Send(cfg, d, r, i).table.dialogs[j] == d.table.dialogs[j]
  {}

  lemma OfferArmed(cfg: Config, d: State, i: int, now: int)
    requires i !in d.table.dialogs
    ensures Arms(d, ArmedBy(cfg, d, OfferAt(i, now)), Offer(cfg, d, i, now))
    ensures Interval(cfg, d, OfferAt(i, now), Offer(cfg, d, i, now))
  {
    if d.table.active < cfg.maxActive {
      var d1 := Admit(cfg, d, i, now);
      SendIdle(cfg, d1, InviteMsg(cfg, i), i);
      PairArmed(d.timers, now, RetransmitInvite, i);
    }
  }

  ghost predicate Interval(cfg: Config, d: State, e: Event, d': State) {
    forall i :: i in d'.table.dialogs ==> d'.table.dialogs[i].retransmitMs == IntervalAfter(cfg, d, e, i)
  }

  /** Each dialog of `d'` was live in `d`, with the interval it had, and `i` with this one. */
  ghost predicate Keeps(d: State, d': State, i: int, interval: int) {
    forall j :: j in d'.table.dialogs ==>
      && j in d.table.dialogs
      && d'.table.dialogs[j].retransmitMs == if j == i then interval else d.table.dialogs[j].retransmitMs
  }

  lemma EstablishArms(cfg: Config, d: State, i: int, at: Readings)
    requires i in d.table.dialogs
    ensures if Through(cfg, d, 0) && Through(cfg, d, 1) then Arms(d, Pair(at.third, RetransmitBye, i), Establish(cfg, d, i, at))
            else Establish(cfg, d, i, at).timers == d.timers
  {
    var d1 := MarkEstablished(d, i, at);
    var d2 := Send(cfg, d1, AckMsg(cfg, i), i);
    SendIdle(cfg, d1, AckMsg(cfg, i), i);
    if SendSucceeds(cfg, d1) {
      SendIdle(cfg, d2, ByeMsg(cfg, i), i);
      PairArmed(d.timers, at.third, RetransmitBye, i);
    }
  }

  lemma EstablishKeeps(cfg: Config, d: State, i: int, at: Readings)
    requires i in d.table.dialogs
    ensures Keeps(d, Establish(cfg, d, i, at), i, 500)
  {
    var d1 := MarkEstablished(d, i, at);
    assert Keeps(d, d1, i, 500);
    SendIdle(cfg, d1, AckMsg(cfg, i), i);
    SendIdle(cfg, Send(cfg, d1, AckMsg(cfg, i), i), ByeMsg(cfg, i), i);
  }

  lemma CallingArmed(cfg: Config, d: State, e: Event)
    requires Linked(d) && e.Arrival? && Reaches(d, e, Concerns(d, e), Calling)
    ensures Arms(d, ArmedBy(cfg, d, e), HandleCalling(cfg, d, Concerns(d, e), e.response, e.at))
  {
    if Answered(cfg, d, e, Calling) { EstablishArms(cfg, d, Concerns(d, e), e.at); }
  }

  lemma CallingInterval(cfg: Config, d: State, e: Event)
    requires Linked(d) && e.Arrival? && Reaches(d, e, Concerns(d, e), Calling)
    ensures Interval(cfg, d, e, HandleCalling(cfg, d, Concerns(d, e), e.response, e.at))
  {
    if Answered(cfg, d, e, Calling) { EstablishKeeps(cfg, d, Concerns(d, e), e.at); }
  }

  lemma ByeArmed(cfg: Config, d: State, e: Event)
    requires Linked(d) && e.Arrival? && Reaches(d, e, Concerns(d, e), ByeSent)
    ensures ArmedBy(cfg, d, e) == [] && HandleBye(cfg, d, Concerns(d, e), e.response, e.at).timers == d.timers
  {
    var i := Concerns(d, e);
    SendIdle(cfg, d.(stats := CountRetransmittedResponse(d.stats, d.table.dialogs[i].counted)), AckMsg(cfg, i), i);
  }

  lemma ByeInterval(cfg: Config, d: State, e: Event)
    requires Linked(d) && e.Arrival? && Reaches(d, e, Concerns(d, e), ByeSent)
    ensures Interval(cfg, d, e, HandleBye(cfg, d, Concerns(d, e), e.response, e.at))
  {
    var i := Concerns(d, e);
    SendIdle(cfg, d.(stats := CountRetransmittedResponse(d.stats, d.table.dialogs[i].counted)), AckMsg(cfg, i), i);
  }

  lemma ResendArms(cfg: Config, d: State, t: Timer, r: Request, interval: int, now: int)
    requires t.index in d.table.dialogs
    ensures if SendSucceeds(cfg, d) then Arms(d, [Timer(now + interval, t.kind, t.index)], Resend(cfg, d, t, r, interval, now))
            else Resend(cfg, d, t, r, interval, now).timers == d.timers
  {
    SendIdle(cfg, d, r, t.index);
    OneArmed(d.timers, Timer(now + interval, t.kind, t.index));
  }

  lemma ResendKeeps(cfg: Config, d: State, t: Timer, r: Request, interval: int, now: int)
    requires t.index in d.table.dialogs
    ensures Keeps(d, Resend(cfg, d, t, r, interval, now), t.index, interval)
  {
    SendIdle(cfg, d, r, t.index);
  }

  /** The one timer that firing the first can arm. */
  lemma FireArming(cfg: Config, d: State, e: Event)
    requires e.FireAt? && d.timers != []
    ensures var t := d.timers[0];
            && (t.index !in d.table.dialogs || t.kind == Timeout || !Through(cfg, d, 0) ==> ArmedBy(cfg, d, e) == [])
            && (t.index in d.table.dialogs && t.kind == RetransmitInvite && Through(cfg, d, 0) ==>
                  ArmedBy(cfg, d, e)
                  == if d.table.dialogs[t.index].phase == Calling
                     then [Timer(e.now + d.table.dialogs[t.index].retransmitMs * 2, t.kind, t.index)] else [])
            && (t.index in d.table.dialogs && t.kind == RetransmitBye && Through(cfg, d, 0) ==>
                  ArmedBy(cfg, d, e)
                  == if d.table.dialogs[t.index].phase == ByeSent
                     then [Timer(e.now + Min(d.table.dialogs[t.index].retransmitMs * 2, T2_MS), t.kind, t.index)] else [])
  {}

  lemma FireArmed(cfg: Config, d: State, e: Event, armed: seq<Timer>)
    requires e.FireAt? && d.timers != [] && armed == ArmedBy(cfg, d, e)
    ensures Arms(d.(timers := d.timers[1..]), armed, Fire(cfg, d, e.now))
  {
    FireArming(cfg, d, e);
    var t, d1 := d.timers[0], d.(timers := d.timers[1..]);
    if t.index in d.table.dialogs {
      var r := d.table.dialogs[t.index].retransmitMs;
      if t.kind == RetransmitInvite { ResendArms(cfg, d1, t, InviteMsg(cfg, t.index), r * 2, e.now); }
      if t.kind == RetransmitBye { ResendArms(cfg, d1, t, ByeMsg(cfg, t.index), Min(r * 2, T2_MS), e.now); }
    }
  }

  lemma FireInterval(cfg: Config, d: State, e: Event)
    requires e.FireAt? && d.timers != []
    ensures Interval(cfg, d, e, Fire(cfg, d, e.now))
  {
    var t, d1 := d.timers[0], d.(timers := d.timers[1..]);
    if t.index in d.table.dialogs {
      var r := d.table.dialogs[t.index].retransmitMs;
      if t.kind == RetransmitInvite { ResendKeeps(cfg, d1, t, InviteMsg(cfg, t.index), r * 2, e.now); }
      if t.kind == RetransmitBye { ResendKeeps(cfg, d1, t, ByeMsg(cfg, t.index), Min(r * 2, T2_MS), e.now); }
    }
  }

  /** Every event of any run pops the first timer if it is a timer event, and arms exactly those. */
  lemma NextArms(cfg: Config, d: State, e: Event)
    requires Linked(d) && Enabled(d, e)
    ensures var rest := if e.FireAt? then d.timers[1..] else d.timers;
            multiset(Next(cfg, d, e).timers) == multiset(rest) + multiset(ArmedBy(cfg, d, e))
    ensures Interval(cfg, d, e, Next(cfg, d, e))
  {
    NextArmed(cfg, d, e);
    ArmAllBag(if e.FireAt? then d.timers[1..] else d.timers, ArmedBy(cfg, d, e));
  }

  lemma NextArmed(cfg: Config, d: State, e: Event)
    requires Linked(d) && Enabled(d, e)
    ensures Arms(if e.FireAt? then d.(timers := d.timers[1..]) else d, ArmedBy(cfg, d, e), Next(cfg, d, e))
    ensures Interval(cfg, d, e, Next(cfg, d, e))
  {
    match e
    case OfferAt(i, now) => OfferArmed(cfg, d, i, now);
    case Arrival(r, at) =>
      if r.callId in d.table.byCallId {
        if d.table.dialogs[Concerns(d, e)].phase == Calling { CallingArmed(cfg, d, e); CallingInterval(cfg, d, e); }
        else { ByeArmed(cfg, d, e); ByeInterval(cfg, d, e); }
      }
    case FireAt(now) => FireArmed(cfg, d, e, ArmedBy(cfg, d, e)); FireInterval(cfg, d, e);
    case ExpireOne(_) =>
    case StartCounting =>
    case ReadClock(_) =>
  }
}
