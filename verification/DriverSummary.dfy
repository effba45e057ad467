/** The counters of the summary, each read off the events of the run: what a counter counts, and that
    it counts nothing else. */
module DriverSummary {
  import opened SipMessages
  import opened DriverModel
  import opened DriverAccounting
  import opened ResultContract
  import opened DriverLatency

  datatype Counter =
    | Offers | Setups | Ended(outcome: Outcome) | Resent | Repeated | WarmupOffers | WarmupCompletions

  /** What the summary shows for a counter. */
  function Shown(s: Stats, c: Counter): nat {
    match c
    case Offers => s.counts.offered
    case Setups => s.counts.established
    case Ended(o) => ShownOutcome(s, o)
    case Resent => s.counts.requestRetransmissions
    case Repeated => s.counts.responseRetransmissions
    case WarmupOffers => s.warmupOffered
    case WarmupCompletions => s.warmupCompleted
  }

  function ShownOutcome(s: Stats, o: Outcome): nat {
    match o
    case Completed => s.counts.completed
    case Rejected => s.errors.rejected
    case TransactionTimeout => s.errors.transactionTimeout
    case InvalidMessage => s.errors.invalidMessage
    case TransportError => s.errors.transportError
    case AdmissionRefused => s.errors.admissionRefused
    case InternalError => s.errors.internalError
    case CleanupTimeout => s.errors.cleanupTimeout
  }

  /** The response is addressed to a live counted dialog in this phase. */
  predicate Heard(d: State, e: Event, phase: Phase) {
    && e.Arrival? && e.response.callId in d.table.byCallId
    && var i := d.table.byCallId[e.response.callId];
       i in d.table.dialogs && d.table.dialogs[i].counted && d.table.dialogs[i].phase == phase
  }

  function Hearer(d: State, e: Event): int
    requires e.Arrival? && e.response.callId in d.table.byCallId
  {
    d.table.byCallId[e.response.callId]
  }

  /** A final response to the INVITE, or to the BYE, of a live counted dialog. */
  predicate Final(cfg: Config, d: State, e: Event, phase: Phase) {
    Heard(d, e, phase) && Takes(cfg, d, e) && e.response.code >= 200
  }

  predicate Objects(cfg: Config, d: State, e: Event, phase: Phase) {
    Heard(d, e, phase) && Objectionable(cfg, d.table.dialogs[Hearer(d, e)], Hearer(d, e), e.response)
  }

  /** The timer popped is a live counted dialog's. */
  predicate Pops(d: State, e: Event) {
    && e.FireAt? && d.timers != [] && d.timers[0].index in d.table.dialogs
    && d.table.dialogs[d.timers[0].index].counted
  }

  /** It is the retransmission of the request the dialog awaits an answer to. */
  predicate Resends(d: State, e: Event) {
    Pops(d, e) && match d.timers[0].kind
                  case RetransmitInvite => d.table.dialogs[d.timers[0].index].phase == Calling
                  case RetransmitBye => d.table.dialogs[d.timers[0].index].phase == ByeSent
                  case Timeout => false
  }

  /** A send on behalf of a counted dialog raises. */
  predicate SendRaises(cfg: Config, d: State, e: Event) {
    var now, next := d.sock.attempts in cfg.sendFails, d.sock.attempts + 1 in cfg.sendFails;
    match e
    case OfferAt(_, _) => d.counting && d.table.active < cfg.maxActive && now
    case Arrival(r, _) =>
      || (CountedAnswer(cfg, d, e, Calling) && (now || next))
      || (Heard(d, e, ByeSent) && r.cseq == INVITE_CSEQ && r.code == 200 && now)
    case FireAt(_) => Resends(d, e) && now
    case _ => false
  }

  /** The event ends, or refuses to begin, a dialog of the measured phase with this outcome. */
  predicate Ends(cfg: Config, d: State, e: Event, o: Outcome) {
    match o
    case Completed => Final(cfg, d, e, ByeSent) && e.response.code == 200
    case Rejected =>
      || (Final(cfg, d, e, Calling) && e.response.code != 200 && e.response.code != 503)
      || (Final(cfg, d, e, ByeSent) && e.response.code != 200)
    case AdmissionRefused => Final(cfg, d, e, Calling) && e.response.code == 503
    case InvalidMessage => Objects(cfg, d, e, Calling) || Objects(cfg, d, e, ByeSent)
    case TransactionTimeout => Pops(d, e) && d.timers[0].kind == Timeout
    case CleanupTimeout => e.ExpireOne? && e.index in d.table.dialogs && d.table.dialogs[e.index].counted
    case InternalError => e.OfferAt? && d.counting && d.table.active >= cfg.maxActive
    case TransportError => SendRaises(cfg, d, e)
  }

  /** A response that repeats what was heard before: a second 100, an answer to the INVITE of a dialog
      in teardown, or anything to one that is over. */
  predicate Repeats(cfg: Config, d: State, e: Event) {
    || (Heard(d, e, Calling) && !Objects(cfg, d, e, Calling) && e.response.code < 200
        && d.table.dialogs[Hearer(d, e)].provisionalSeen)
    || (Heard(d, e, ByeSent) && e.response.cseq == INVITE_CSEQ)
    || (e.Arrival? && e.response.callId !in d.table.byCallId && e.response.callId in d.table.done && d.counting)
  }

  /** What makes a counter go up by one. */
  predicate Bumps(cfg: Config, d: State, e: Event, c: Counter) {
    match c
    case Offers => e.OfferAt? && d.counting
    case Setups => Final(cfg, d, e, Calling) && e.response.code == 200
    case Ended(o) => Ends(cfg, d, e, o)
    case Resent => Resends(d, e) && d.sock.attempts !in cfg.sendFails
    case Repeated => Repeats(cfg, d, e)
    case WarmupOffers => e.OfferAt? && !d.counting
    case WarmupCompletions =>
      Answered(cfg, d, e, ByeSent) && !d.table.dialogs[CallAnswered(cfg, d, e, ByeSent)].counted
  }

  ghost predicate Bumped(cfg: Config, d: State, e: Event, s: Stats) {
    forall c :: Shown(s, c) == Shown(d.stats, c) + One(Bumps(cfg, d, e, c))
  }

  /** The counters after a send on behalf of dialog `i`. */
  lemma SendShown(cfg: Config, d: State, r: Request, i: int)
    requires i in d.table.dialogs
    ensures Send(cfg, d, r, i).stats
         == if SendSucceeds(cfg, d) then d.stats else Conclude(d.stats, d.table.dialogs[i].counted, TransportError)
  {}

  lemma OfferBumps(cfg: Config, d: State, e: Event)
    requires e.OfferAt? && Linked(d) && Enabled(d, e)
    ensures Bumped(cfg, d, e, Next(cfg, d, e).stats)
  {
    if d.table.active < cfg.maxActive { SendShown(cfg, Admit(cfg, d, e.index, e.now), InviteMsg(cfg, e.index), e.index); }
  }

  /** A dialog's end moves the one counter of its outcome. */
  lemma ConcludeShown(s: Stats, counted: bool, o: Outcome)
    ensures forall c :: Shown(Conclude(s, counted, o), c)
                     == Shown(s, c) + One(if counted then c == Ended(o) else c == WarmupCompletions && o == Completed)
  {}

  lemma FireCause(cfg: Config, d: State, e: Event)
    requires e.FireAt?
    ensures forall c :: Bumps(cfg, d, e, c)
                   <==> || (c == Ended(TransactionTimeout) && Pops(d, e) && d.timers[0].kind == Timeout)
                        || (c == Ended(TransportError) && Resends(d, e) && d.sock.attempts in cfg.sendFails)
                        || (c == Resent && Resends(d, e) && d.sock.attempts !in cfg.sendFails)
  {}

  lemma ResendShown(cfg: Config, d: State, t: Timer, r: Request, interval: int, now: int)
    requires t.index in d.table.dialogs
    ensures var s, counted := Resend(cfg, d, t, r, interval, now).stats, d.table.dialogs[t.index].counted;
            forall c :: Shown(s, c)
                     == Shown(d.stats, c)
                        + One(counted && c == if SendSucceeds(cfg, d) then Resent else Ended(TransportError))
  {
    SendShown(cfg, d, r, t.index);
    ConcludeShown(d.stats, d.table.dialogs[t.index].counted, TransportError);
  }

  lemma FireBumps(cfg: Config, d: State, e: Event)
    requires e.FireAt? && Linked(d) && Enabled(d, e)
    ensures Bumped(cfg, d, e, Next(cfg, d, e).stats)
  {
    FireCause(cfg, d, e);
    var t, d1 := d.timers[0], d.(timers := d.timers[1..]);
    if t.index in d.table.dialogs {
      var g := d.table.dialogs[t.index];
      if t.kind == Timeout { ConcludeShown(d.stats, g.counted, TransactionTimeout); }
      else if t.kind == RetransmitInvite { ResendShown(cfg, d1, t, InviteMsg(cfg, t.index), g.retransmitMs * 2, e.now); }
      else { ResendShown(cfg, d1, t, ByeMsg(cfg, t.index), Min(g.retransmitMs * 2, T2_MS), e.now); }
    }
  }

  /** An establishment counts itself and, if a send raises, the dialog's end. */
  lemma EstablishShown(cfg: Config, d: State, i: int, at: Readings)
    requires i in d.table.dialogs
    ensures var s, counted := Establish(cfg, d, i, at).stats, d.table.dialogs[i].counted;
            var raises := d.sock.attempts in cfg.sendFails || d.sock.attempts + 1 in cfg.sendFails;
            forall c :: Shown(s, c)
                     == Shown(d.stats, c) + One(counted && (c == Setups || (c == Ended(TransportError) && raises)))
  {
    var d1 := MarkEstablished(d, i, at);
    SendShown(cfg, d1, AckMsg(cfg, i), i);
    if SendSucceeds(cfg, d1) { SendShown(cfg, Send(cfg, d1, AckMsg(cfg, i), i), ByeMsg(cfg, i), i); }
    ConcludeShown(d1.stats, d.table.dialogs[i].counted, TransportError);
  }

  lemma CallingCause(cfg: Config, d: State, e: Event)
    requires e.Arrival? && e.response.callId in d.table.byCallId && Hearer(d, e) in d.table.dialogs
    requires d.table.dialogs[Hearer(d, e)].phase == Calling
    ensures var i, r := Hearer(d, e), e.response;
            var g := d.table.dialogs[i];
            var fine, raises := !Objectionable(cfg, g, i, r), SendRaises(cfg, d, e);
            forall c :: Bumps(cfg, d, e, c)
                   <==> g.counted && match c
                        case Setups => fine && r.code == 200
                        case Ended(InvalidMessage) => !fine
                        case Ended(TransportError) => fine && r.code == 200 && raises
                        case Ended(AdmissionRefused) => fine && r.code == 503
                        case Ended(Rejected) => fine && r.code > 200 && r.code != 503
                        case Repeated => fine && r.code < 200 && g.provisionalSeen
                        case _ => false
  {}

  lemma CallingBumps(cfg: Config, d: State, e: Event)
    requires e.Arrival? && Linked(d) && e.response.callId in d.table.byCallId
    requires d.table.dialogs[Hearer(d, e)].phase == Calling
    ensures Bumped(cfg, d, e, HandleCalling(cfg, d, Hearer(d, e), e.response, e.at).stats)
  {
    var i, r := Hearer(d, e), e.response;
    var g := d.table.dialogs[i];
    CallingCause(cfg, d, e);
    if Objectionable(cfg, g, i, r) { ConcludeShown(d.stats, g.counted, InvalidMessage); }
    else if r.code == 200 { EstablishShown(cfg, d, i, e.at); }
    else if r.code > 200 { RefusalShown(cfg, d, i, r); }
    else { TryingShown(d, i); }
  }

  lemma RefusalShown(cfg: Config, d: State, i: int, r: Response)
    requires i in d.table.dialogs
    ensures var s, counted := TakeRefusal(cfg, d, i, r).stats, d.table.dialogs[i].counted;
            forall c :: Shown(s, c)
                     == Shown(d.stats, c)
                        + One(counted && c == Ended(if r.code == 503 then AdmissionRefused else Rejected))
  {
    var counted := d.table.dialogs[i].counted;
    ConcludeShown(CountFinal(d.stats, counted, r.code), counted, if r.code == 503 then AdmissionRefused else Rejected);
  }

  lemma TryingShown(d: State, i: int)
    requires i in d.table.dialogs
    ensures var s, g := TakeTrying(d, i).stats, d.table.dialogs[i];
            forall c :: Shown(s, c) == Shown(d.stats, c) + One(g.counted && g.provisionalSeen && c == Repeated)
  {}

  lemma ByeCause(cfg: Config, d: State, e: Event)
    requires e.Arrival? && e.response.callId in d.table.byCallId && Hearer(d, e) in d.table.dialogs
    requires d.table.dialogs[Hearer(d, e)].phase == ByeSent
    ensures var i, r := Hearer(d, e), e.response;
            var g := d.table.dialogs[i];
            var fine, again := !Objectionable(cfg, g, i, r), r.cseq == INVITE_CSEQ;
            forall c :: Bumps(cfg, d, e, c)
                   <==> match c
                        case Repeated => g.counted && again
                        case Ended(InvalidMessage) => g.counted && !fine
                        case Ended(TransportError) =>
                          g.counted && again && r.code == 200 && d.sock.attempts in cfg.sendFails
                        case Ended(Completed) => g.counted && fine && !again && r.code == 200
                        case Ended(Rejected) => g.counted && fine && !again && r.code != 200
                        case WarmupCompletions => !g.counted && fine && !again && r.code == 200
                        case _ => false
  {}

  lemma ByeBumps(cfg: Config, d: State, e: Event)
    requires e.Arrival? && Linked(d) && e.response.callId in d.table.byCallId
    requires d.table.dialogs[Hearer(d, e)].phase == ByeSent
    ensures Bumped(cfg, d, e, HandleBye(cfg, d, Hearer(d, e), e.response, e.at).stats)
  {
    var i, r := Hearer(d, e), e.response;
    var g := d.table.dialogs[i];
    ByeCause(cfg, d, e);
    if r.cseq == INVITE_CSEQ {
      var d1 := d.(stats := CountRetransmittedResponse(d.stats, g.counted));
      SendShown(cfg, d1, AckMsg(cfg, i), i);
      ConcludeShown(d1.stats, g.counted, TransportError);
    } else if Objectionable(cfg, g, i, r) {
      ConcludeShown(d.stats, g.counted, InvalidMessage);
    } else {
      ByeFinalShown(cfg, d, i, r.code, e.at.first);
    }
  }

  lemma ByeFinalShown(cfg: Config, d: State, i: int, code: int, now: int)
    requires i in d.table.dialogs
    ensures var s, counted := TakeByeFinal(cfg, d, i, code, now).stats, d.table.dialogs[i].counted;
            forall c :: Shown(s, c)
                     == Shown(d.stats, c) + One(if counted then c == Ended(if code == 200 then Completed else Rejected)
                                                else c == WarmupCompletions && code == 200)
  {
    var g := d.table.dialogs[i];
    var s := CountFinal(d.stats, g.counted, code);
    ConcludeShown(CountTeardown(s, g.counted, now - g.byeAt), g.counted, Completed);
    ConcludeShown(s, g.counted, Rejected);
  }

  lemma StrayBumps(cfg: Config, d: State, e: Event)
    requires e.Arrival? && e.response.callId !in d.table.byCallId
    ensures Bumped(cfg, d, e, HandleStray(cfg, d, e.response).stats)
  {
    assert forall c :: Bumps(cfg, d, e, c) <==> c == Repeated && e.response.callId in d.table.done && d.counting;
  }

  lemma ExpireBumps(cfg: Config, d: State, e: Event)
    requires e.ExpireOne? && e.index in d.table.dialogs
    ensures Bumped(cfg, d, e, Finish(cfg, d, e.index, CleanupTimeout).stats)
  {
    var counted := d.table.dialogs[e.index].counted;
    assert forall c :: Bumps(cfg, d, e, c) <==> c == Ended(CleanupTimeout) && counted;
    ConcludeShown(d.stats, counted, CleanupTimeout);
  }

  lemma IdleBumps(cfg: Config, d: State, e: Event)
    requires e.StartCounting? || e.ReadClock?
    ensures forall c :: !Bumps(cfg, d, e, c)
  {}

  lemma NextBumps(cfg: Config, d: State, e: Event)
    requires Linked(d) && Enabled(d, e)
    ensures Bumped(cfg, d, e, Next(cfg, d, e).stats)
  {
    match e
    case OfferAt(_, _) => OfferBumps(cfg, d, e);
    case Arrival(r, at) =>
      if r.callId in d.table.byCallId {
        if d.table.dialogs[Hearer(d, e)].phase == Calling { CallingBumps(cfg, d, e); } else { ByeBumps(cfg, d, e); }
      } else {
        StrayBumps(cfg, d, e);
      }
    case FireAt(_) => FireBumps(cfg, d, e);
    case ExpireOne(_) => ExpireBumps(cfg, d, e);
    case StartCounting => IdleBumps(cfg, d, e);
    case ReadClock(_) => IdleBumps(cfg, d, e);
  }

  predicate BumpsAt(cfg: Config, ss: seq<State>, es: seq<Event>, c: Counter, k: nat)
    requires k < |es| && |ss| == |es| + 1
  {
    Bumps(cfg, ss[k], es[k], c)
  }

  /** How many of the first `n` events count under `c`. */
  function Occurrences(cfg: Config, ss: seq<State>, es: seq<Event>, c: Counter, n: nat): nat
    requires n <= |es| && |ss| == |es| + 1
  {
    if n == 0 then 0 else Occurrences(cfg, ss, es, c, n - 1) + One(BumpsAt(cfg, ss, es, c, n - 1))
  }

  /** Over every run each counter grew by the number of its own occurrences, and nothing else. */
  lemma {:induction false} CountersExact(
    cfg: Config, distinct: bool, ss: seq<State>, es: seq<Event>, c: Counter, n: nat)
    requires Traced(cfg, distinct, ss, es) && n <= |es|
    ensures Shown(ss[n].stats, c) == Shown(ss[0].stats, c) + Occurrences(cfg, ss, es, c, n)
  {
    if n > 0 {
      CountersExact(cfg, distinct, ss, es, c, n - 1);
      assert MovesAt(cfg, distinct, ss, es, n - 1);
      NextBumps(cfg, ss[n - 1], es[n - 1]);
    }
  }

  // ---- the high water --------------------------------------------------------------------------

  /** The event admits a dialog of the measured phase. */
  predicate Admits(cfg: Config, d: State, e: Event) {
    e.OfferAt? && d.counting && d.table.active < cfg.maxActive
  }

  /** The most dialogs that were live at once just after such an event. */
  function Peak(cfg: Config, ss: seq<State>, es: seq<Event>, n: nat): int
    requires n <= |es| && |ss| == |es| + 1
  {
    if n == 0 then 0
    else if Admits(cfg, ss[n - 1], es[n - 1])
    then Max(Peak(cfg, ss, es, n - 1), |ss[n - 1].table.dialogs| + 1)
    else Peak(cfg, ss, es, n - 1)
  }

  lemma EstablishKeepsPeak(cfg: Config, d: State, i: int, at: Readings)
    requires i in d.table.dialogs
    ensures Establish(cfg, d, i, at).stats.counts.highWater == d.stats.counts.highWater
  {
    var d1 := MarkEstablished(d, i, at);
    SendShown(cfg, d1, AckMsg(cfg, i), i);
    if SendSucceeds(cfg, d1) { SendShown(cfg, Send(cfg, d1, AckMsg(cfg, i), i), ByeMsg(cfg, i), i); }
  }

  lemma ByeKeepsPeak(cfg: Config, d: State, i: int, r: Response, at: Readings)
    requires i in d.table.dialogs
    ensures HandleBye(cfg, d, i, r, at).stats.counts.highWater == d.stats.counts.highWater
  {
    SendShown(cfg, d.(stats := CountRetransmittedResponse(d.stats, d.table.dialogs[i].counted)), AckMsg(cfg, i), i);
  }

  lemma HandleKeepsPeak(cfg: Config, d: State, r: Response, at: Readings)
    requires Linked(d)
    ensures Handle(cfg, d, r, at).stats.counts.highWater == d.stats.counts.highWater
  {
    if r.callId in d.table.byCallId {
      var i := d.table.byCallId[r.callId];
      EstablishKeepsPeak(cfg, d, i, at);
      ByeKeepsPeak(cfg, d, i, r, at);
    }
  }

  lemma NextPeak(cfg: Config, d: State, e: Event)
    requires Linked(d) && Enabled(d, e)
    ensures Next(cfg, d, e).stats.counts.highWater
         == if Admits(cfg, d, e) then Max(d.stats.counts.highWater, d.table.active + 1)
            else d.stats.counts.highWater
  {
    match e
    case OfferAt(i, now) => SendShown(cfg, Admit(cfg, d, i, now), InviteMsg(cfg, i), i);
    case Arrival(r, at) => HandleKeepsPeak(cfg, d, r, at);
    case FireAt(now) =>
      var d1 := d.(timers := d.timers[1..]);
      if d.timers[0].index in d.table.dialogs {
        SendShown(cfg, d1, InviteMsg(cfg, d.timers[0].index), d.timers[0].index);
        SendShown(cfg, d1, ByeMsg(cfg, d.timers[0].index), d.timers[0].index);
      }
    case ExpireOne(_) =>
    case StartCounting =>
    case ReadClock(_) =>
  }

  /** The reported high water is that maximum. */
  lemma {:induction false} HighWaterExact(cfg: Config, distinct: bool, ss: seq<State>, es: seq<Event>, n: nat)
    requires Traced(cfg, distinct, ss, es) && IsInitial(ss[0]) && n <= |es|
    ensures ss[n].stats.counts.highWater == Peak(cfg, ss, es, n)
  {
    if n > 0 {
      HighWaterExact(cfg, distinct, ss, es, n - 1);
      assert MovesAt(cfg, distinct, ss, es, n - 1);
      NextPeak(cfg, ss[n - 1], es[n - 1]);
      TracedPrefix(cfg, distinct, ss, es, n - 1);
      RunAccounted(cfg, distinct, ss[0], es[..n - 1], ss[n - 1]);
    }
  }
}
