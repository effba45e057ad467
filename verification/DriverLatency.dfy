/** What the latency samples of a run time: each set-up sample a dialog's own INVITE against its 200,
    each teardown sample its acceptance against the 200 to its BYE. */
module DriverLatency {
  import opened SipMessages
  import opened DriverModel
  import opened ResultContract

  /** A response the driver accepts as the 200 its dialog waits for in this phase. */
  predicate Answered(cfg: Config, d: State, e: Event, phase: Phase) {
    && e.Arrival? && e.response.code == 200 && e.response.callId in d.table.byCallId
    && var i := d.table.byCallId[e.response.callId];
       && i in d.table.dialogs && d.table.dialogs[i].phase == phase
       && !Objectionable(cfg, d.table.dialogs[i], i, e.response)
       && (phase == ByeSent ==> e.response.cseq != INVITE_CSEQ)
  }

  function CallAnswered(cfg: Config, d: State, e: Event, phase: Phase): int
    requires Answered(cfg, d, e, phase)
  {
    d.table.byCallId[e.response.callId]
  }

  predicate CountedAnswer(cfg: Config, d: State, e: Event, phase: Phase) {
    Answered(cfg, d, e, phase) && d.table.dialogs[CallAnswered(cfg, d, e, phase)].counted
  }

  /** Every dialog of `d'` was live in `d`, in the same phase since the same instants, and no sample
      was taken. */
  ghost predicate Untimed(d: State, d': State) {
    && (forall i :: i in d'.table.dialogs ==> Alike(d, d', i))
    && d'.stats.setupMs == d.stats.setupMs && d'.stats.teardownMs == d.stats.teardownMs
  }

  ghost predicate Alike(d: State, d': State, i: int)
    requires i in d'.table.dialogs
  {
    && i in d.table.dialogs
    && var g, g' := d.table.dialogs[i], d'.table.dialogs[i];
       g'.phase == g.phase && g'.inviteAt == g.inviteAt && g'.byeAt == g.byeAt
  }

  lemma UntimedTrans(a: State, b: State, c: State)
    requires Untimed(a, b) && Untimed(b, c)
    ensures Untimed(a, c)
  {
    forall i | i in c.table.dialogs ensures Alike(a, c, i) { assert Alike(b, c, i) && Alike(a, b, i); }
  }

  lemma SendUntimed(cfg: Config, d: State, r: Request, i: int)
    ensures Untimed(d, Send(cfg, d, r, i))
  {}

  lemma FinishUntimed(cfg: Config, d: State, i: int, o: Outcome)
    ensures Untimed(d, Finish(cfg, d, i, o))
  {}

  /** The instants after a 200 to an INVITE. */
  ghost predicate SetUp(d: State, d': State, i: int, at: Readings)
    requires i in d.table.dialogs
  {
    && (forall j :: j in d'.table.dialogs && j != i ==> Alike(d, d', j))
    && (i in d'.table.dialogs ==>
          && d'.table.dialogs[i].phase == ByeSent && d'.table.dialogs[i].byeAt == at.second
          && d'.table.dialogs[i].inviteAt == d.table.dialogs[i].inviteAt)
    && d'.stats.setupMs
       == d.stats.setupMs + (if d.table.dialogs[i].counted then [at.first - d.table.dialogs[i].inviteAt] else [])
    && d'.stats.teardownMs == d.stats.teardownMs
  }

  lemma EstablishSetsUp(cfg: Config, d: State, i: int, at: Readings)
    requires i in d.table.dialogs
    ensures SetUp(d, Establish(cfg, d, i, at), i, at)
  {
    var d1 := MarkEstablished(d, i, at);
    var d2 := Send(cfg, d1, AckMsg(cfg, i), i);
    assert SetUp(d, d1, i, at);
    SendUntimed(cfg, d1, AckMsg(cfg, i), i);
    if SendSucceeds(cfg, d1) {
      var d3 := Send(cfg, d2, ByeMsg(cfg, i), i);
      SendUntimed(cfg, d2, ByeMsg(cfg, i), i);
      UntimedTrans(d1, d2, d3);
      assert Untimed(d1, Establish(cfg, d, i, at));
    }
    SetUpKept(d, d1, Establish(cfg, d, i, at), i, at);
  }

  lemma SetUpKept(d: State, d1: State, d2: State, i: int, at: Readings)
    requires i in d.table.dialogs && SetUp(d, d1, i, at) && Untimed(d1, d2)
    ensures SetUp(d, d2, i, at)
  {
    forall j | j in d2.table.dialogs ensures j != i ==> Alike(d, d2, j) { assert Alike(d1, d2, j); }
    if i in d2.table.dialogs { assert Alike(d1, d2, i); }
  }

  /** What one arrival does to the instants and the samples. */
  ghost predicate Times(cfg: Config, d: State, e: Event, d': State)
    requires e.Arrival?
  {
    if Answered(cfg, d, e, Calling) then SetUp(d, d', CallAnswered(cfg, d, e, Calling), e.at)
    else if CountedAnswer(cfg, d, e, ByeSent) then
      Untimed(d.(stats := d.stats.(teardownMs := d.stats.teardownMs
              + [e.at.first - d.table.dialogs[CallAnswered(cfg, d, e, ByeSent)].byeAt])), d')
    else Untimed(d, d')
  }

  lemma ByeTimes(cfg: Config, d: State, i: int, r: Response, at: Readings)
    requires Linked(d) && r.callId in d.table.byCallId && d.table.byCallId[r.callId] == i
    requires i in d.table.dialogs && d.table.dialogs[i].phase == ByeSent
    ensures Times(cfg, d, Arrival(r, at), HandleBye(cfg, d, i, r, at))
  {
    if r.cseq == INVITE_CSEQ {
      SendUntimed(cfg, d.(stats := CountRetransmittedResponse(d.stats, d.table.dialogs[i].counted)), AckMsg(cfg, i), i);
    } else if Objectionable(cfg, d.table.dialogs[i], i, r) {
      FinishUntimed(cfg, d, i, InvalidMessage);
    }
  }

  lemma CallingTimes(cfg: Config, d: State, i: int, r: Response, at: Readings)
    requires Linked(d) && r.callId in d.table.byCallId && d.table.byCallId[r.callId] == i
    requires i in d.table.dialogs && d.table.dialogs[i].phase == Calling
    ensures Times(cfg, d, Arrival(r, at), HandleCalling(cfg, d, i, r, at))
  {
    if Objectionable(cfg, d.table.dialogs[i], i, r) { FinishUntimed(cfg, d, i, InvalidMessage); }
    else if r.code == 200 { EstablishSetsUp(cfg, d, i, at); }
  }

  lemma HandleTimes(cfg: Config, d: State, r: Response, at: Readings)
    requires Linked(d)
    ensures Times(cfg, d, Arrival(r, at), Handle(cfg, d, r, at))
  {
    if r.callId in d.table.byCallId {
      var i := d.table.byCallId[r.callId];
      if d.table.dialogs[i].phase == Calling { CallingTimes(cfg, d, i, r, at); } else { ByeTimes(cfg, d, i, r, at); }
    }
  }

  lemma OfferTimes(cfg: Config, d: State, i: int, now: int)
    requires i !in d.table.dialogs
    ensures var d' := Offer(cfg, d, i, now);
            && (forall j :: j in d'.table.dialogs && j != i ==> Alike(d, d', j))
            && (i in d'.table.dialogs ==>
                  d'.table.dialogs[i].phase == Calling && d'.table.dialogs[i].inviteAt == now)
            && d'.stats.setupMs == d.stats.setupMs && d'.stats.teardownMs == d.stats.teardownMs
  {
    var d1 := Admit(cfg, d, i, now);
    SendUntimed(cfg, d1, InviteMsg(cfg, i), i);
    if d.table.active < cfg.maxActive {
      forall j | j in Offer(cfg, d, i, now).table.dialogs ensures Alike(d1, Offer(cfg, d, i, now), j) {}
    }
  }

  lemma FireUntimed(cfg: Config, d: State, now: int)
    requires d.timers != []
    ensures Untimed(d, Fire(cfg, d, now))
  {
    var t, d1 := d.timers[0], d.(timers := d.timers[1..]);
    SendUntimed(cfg, d1, InviteMsg(cfg, t.index), t.index);
    SendUntimed(cfg, d1, ByeMsg(cfg, t.index), t.index);
    if t.kind == Timeout { FinishUntimed(cfg, d1, t.index, TransactionTimeout); }
  }

  // ---- over a run ------------------------------------------------------------------------------

  /** When index `i` was last offered, and last accepted, among the first `n` events. */
  function OfferedAt(es: seq<Event>, n: nat, i: int): int
    requires n <= |es|
  {
    if n == 0 then 0
    else if es[n - 1].OfferAt? && es[n - 1].index == i then es[n - 1].now
    else OfferedAt(es, n - 1, i)
  }

  function AcceptedAt(cfg: Config, ss: seq<State>, es: seq<Event>, n: nat, i: int): int
    requires n <= |es| && |ss| == |es| + 1
  {
    if n == 0 then 0
    else if Answered(cfg, ss[n - 1], es[n - 1], Calling) && CallAnswered(cfg, ss[n - 1], es[n - 1], Calling) == i
    then es[n - 1].at.second
    else AcceptedAt(cfg, ss, es, n - 1, i)
  }

  /** If event `n` is the 200 to the INVITE of a counted dialog: the time since its last offer. */
  function SetupTime(cfg: Config, ss: seq<State>, es: seq<Event>, n: nat): seq<int>
    requires n < |es| && |ss| == |es| + 1
  {
    if CountedAnswer(cfg, ss[n], es[n], Calling)
    then [es[n].at.first - OfferedAt(es, n, CallAnswered(cfg, ss[n], es[n], Calling))] else []
  }

  function SetupTimes(cfg: Config, ss: seq<State>, es: seq<Event>, n: nat): seq<int>
    requires n <= |es| && |ss| == |es| + 1
  {
    if n == 0 then [] else SetupTimes(cfg, ss, es, n - 1) + SetupTime(cfg, ss, es, n - 1)
  }

  /** If event `n` is the 200 to the BYE of a counted dialog: the time since it was accepted. */
  function TeardownTime(cfg: Config, ss: seq<State>, es: seq<Event>, n: nat): seq<int>
    requires n < |es| && |ss| == |es| + 1
  {
    if CountedAnswer(cfg, ss[n], es[n], ByeSent)
    then [es[n].at.first - AcceptedAt(cfg, ss, es, n, CallAnswered(cfg, ss[n], es[n], ByeSent))] else []
  }

  function TeardownTimes(cfg: Config, ss: seq<State>, es: seq<Event>, n: nat): seq<int>
    requires n <= |es| && |ss| == |es| + 1
  {
    if n == 0 then [] else TeardownTimes(cfg, ss, es, n - 1) + TeardownTime(cfg, ss, es, n - 1)
  }

  /** The instants a live dialog carries are those of its last offer and its acceptance. */
  ghost predicate Dated(cfg: Config, ss: seq<State>, es: seq<Event>, n: nat, i: int)
    requires n <= |es| && |ss| == |es| + 1
  {
    i in ss[n].table.dialogs ==>
      var g := ss[n].table.dialogs[i];
      g.inviteAt == OfferedAt(es, n, i) && (g.phase == ByeSent ==> g.byeAt == AcceptedAt(cfg, ss, es, n, i))
  }

  lemma NextDated(cfg: Config, distinct: bool, ss: seq<State>, es: seq<Event>, n: nat, i: int)
    requires Traced(cfg, distinct, ss, es) && n < |es| && Dated(cfg, ss, es, n, i)
    ensures Dated(cfg, ss, es, n + 1, i)
  {
    assert MovesAt(cfg, distinct, ss, es, n);
    if i in ss[n + 1].table.dialogs { NextTimes(cfg, ss[n], es[n], i); }
  }

  lemma NextTimes(cfg: Config, d: State, e: Event, i: int)
    requires Linked(d) && Enabled(d, e) && i in Next(cfg, d, e).table.dialogs
    ensures var d' := Next(cfg, d, e);
            if e.OfferAt? && e.index == i then
              d'.table.dialogs[i].phase == Calling && d'.table.dialogs[i].inviteAt == e.now
            else if Answered(cfg, d, e, Calling) && CallAnswered(cfg, d, e, Calling) == i then
              && d'.table.dialogs[i].byeAt == e.at.second
              && d'.table.dialogs[i].inviteAt == d.table.dialogs[i].inviteAt
            else Alike(d, d', i)
  {
    match e
    case OfferAt(j, now) => OfferTimes(cfg, d, j, now);
    case Arrival(r, at) => HandleTimes(cfg, d, r, at);
    case FireAt(now) => FireUntimed(cfg, d, now);
    case ExpireOne(j) => FinishUntimed(cfg, d, j, CleanupTimeout);
    case StartCounting =>
    case ReadClock(_) =>
  }

  /** The sample an event takes by the instants its dialog carries. */
  function Sample(cfg: Config, d: State, e: Event, phase: Phase): seq<int> {
    if !CountedAnswer(cfg, d, e, phase) then []
    else
      var g := d.table.dialogs[CallAnswered(cfg, d, e, phase)];
      [e.at.first - if phase == Calling then g.inviteAt else g.byeAt]
  }

  lemma NextSamples(cfg: Config, d: State, e: Event)
    requires Linked(d) && Enabled(d, e)
    ensures Next(cfg, d, e).stats.setupMs == d.stats.setupMs + Sample(cfg, d, e, Calling)
    ensures Next(cfg, d, e).stats.teardownMs == d.stats.teardownMs + Sample(cfg, d, e, ByeSent)
  {
    if e.Arrival? { HandleTimes(cfg, d, e.response, e.at); } else { NextUnsampled(cfg, d, e); }
  }

  lemma NextUnsampled(cfg: Config, d: State, e: Event)
    requires Linked(d) && Enabled(d, e) && !e.Arrival?
    ensures Next(cfg, d, e).stats.setupMs == d.stats.setupMs
    ensures Next(cfg, d, e).stats.teardownMs == d.stats.teardownMs
  {
    match e
    case OfferAt(j, now) => OfferTimes(cfg, d, j, now);
    case FireAt(now) => FireUntimed(cfg, d, now);
    case ExpireOne(j) => FinishUntimed(cfg, d, j, CleanupTimeout);
    case StartCounting =>
    case ReadClock(_) =>
  }

  lemma {:induction false} RunDated(
    cfg: Config, distinct: bool, ss: seq<State>, es: seq<Event>, n: nat, i: int)
    requires Traced(cfg, distinct, ss, es) && IsInitial(ss[0]) && n <= |es|
    ensures Dated(cfg, ss, es, n, i)
  {
    if n > 0 {
      RunDated(cfg, distinct, ss, es, n - 1, i);
      NextDated(cfg, distinct, ss, es, n - 1, i);
    }
  }

  /** Those instants are the run's. */
  lemma SampleRead(cfg: Config, distinct: bool, ss: seq<State>, es: seq<Event>, n: nat)
    requires Traced(cfg, distinct, ss, es) && IsInitial(ss[0]) && n < |es|
    ensures Sample(cfg, ss[n], es[n], Calling) == SetupTime(cfg, ss, es, n)
    ensures Sample(cfg, ss[n], es[n], ByeSent) == TeardownTime(cfg, ss, es, n)
  {
    var d, e := ss[n], es[n];
    if CountedAnswer(cfg, d, e, Calling) { RunDated(cfg, distinct, ss, es, n, CallAnswered(cfg, d, e, Calling)); }
    if CountedAnswer(cfg, d, e, ByeSent) { RunDated(cfg, distinct, ss, es, n, CallAnswered(cfg, d, e, ByeSent)); }
  }

  lemma NextRunTimes(cfg: Config, distinct: bool, ss: seq<State>, es: seq<Event>, n: nat)
    requires Traced(cfg, distinct, ss, es) && IsInitial(ss[0]) && n < |es|
    ensures ss[n + 1].stats.setupMs == ss[n].stats.setupMs + SetupTime(cfg, ss, es, n)
    ensures ss[n + 1].stats.teardownMs == ss[n].stats.teardownMs + TeardownTime(cfg, ss, es, n)
  {
    assert MovesAt(cfg, distinct, ss, es, n);
    NextSamples(cfg, ss[n], es[n]);
    SampleRead(cfg, distinct, ss, es, n);
  }

  /** The samples of every run, indices offered twice included: a set-up sample is taken exactly when
      a 200 takes a counted dialog out of its calling phase, and is the time since the last offer of
      its index; a teardown sample exactly when one completes, and is the time since it was accepted. */
  lemma {:induction false} RunTimes(cfg: Config, distinct: bool, ss: seq<State>, es: seq<Event>, n: nat)
    requires Traced(cfg, distinct, ss, es) && IsInitial(ss[0]) && n <= |es|
    ensures ss[n].stats.setupMs == SetupTimes(cfg, ss, es, n)
    ensures ss[n].stats.teardownMs == TeardownTimes(cfg, ss, es, n)
  {
    if n > 0 {
      RunTimes(cfg, distinct, ss, es, n - 1);
      NextRunTimes(cfg, distinct, ss, es, n - 1);
    }
  }
}
