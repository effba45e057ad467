/** The latency samples of every run, indices offered twice included, are never negative: a dialog is
    timed against readings of the same clock taken earlier. */
module DriverSamples {
  import opened SipMessages
  import opened DriverModel

  predicate SamplesNonNegative(s: Stats) {
    && (forall x :: x in s.setupMs ==> x >= 0)
    && (forall x :: x in s.teardownMs ==> x >= 0)
  }

  predicate Dated(dialogs: map<int, Dialog>, clock: int) {
    forall i :: i in dialogs ==> dialogs[i].inviteAt <= clock && dialogs[i].byeAt <= clock
  }

  predicate Sampled(d: State) { SamplesNonNegative(d.stats) && Dated(d.table.dialogs, d.clock) }

  lemma SendSampled(cfg: Config, d: State, r: Request, i: int)
    requires Sampled(d)
    ensures Sampled(Send(cfg, d, r, i))
  {}

  lemma OfferSampled(cfg: Config, d: State, i: int, now: int)
    requires Sampled(d) && d.clock <= now
    ensures Sampled(Offer(cfg, d, i, now).(clock := now))
  {
    SendSampled(cfg, Admit(cfg, d, i, now).(clock := now), InviteMsg(cfg, i), i);
  }

  lemma EstablishSampled(cfg: Config, d: State, i: int, at: Readings)
    requires Sampled(d) && i in d.table.dialogs && d.clock <= at.first <= at.second <= at.third
    ensures Sampled(Establish(cfg, d, i, at).(clock := at.third))
  {
    var d1 := MarkEstablished(d, i, at).(clock := at.third);
    SendSampled(cfg, d1, AckMsg(cfg, i), i);
    SendSampled(cfg, Send(cfg, d1, AckMsg(cfg, i), i), ByeMsg(cfg, i), i);
  }

  lemma ByeSampled(cfg: Config, d: State, i: int, r: Response, at: Readings)
    requires Sampled(d) && i in d.table.dialogs && d.clock <= at.first <= at.third
    ensures Sampled(HandleBye(cfg, d, i, r, at).(clock := at.third))
  {
    if r.cseq == INVITE_CSEQ {
      SendSampled(cfg, d.(stats := CountRetransmittedResponse(d.stats, d.table.dialogs[i].counted)), AckMsg(cfg, i), i);
    }
  }

  lemma FinishSampled(cfg: Config, d: State, i: int, o: Outcome, clock: int)
    requires Sampled(d) && d.clock <= clock
    ensures Sampled(Finish(cfg, d, i, o).(clock := clock))
  {}

  lemma TryingSampled(d: State, i: int, clock: int)
    requires Sampled(d) && i in d.table.dialogs && d.clock <= clock
    ensures Sampled(TakeTrying(d, i).(clock := clock))
  {}

  lemma RefusalSampled(cfg: Config, d: State, i: int, r: Response, clock: int)
    requires Sampled(d) && i in d.table.dialogs && d.clock <= clock
    ensures Sampled(TakeRefusal(cfg, d, i, r).(clock := clock))
  {}

  lemma CallingSampled(cfg: Config, d: State, i: int, r: Response, at: Readings)
    requires Sampled(d) && i in d.table.dialogs && d.table.dialogs[i].phase == Calling
    requires d.clock <= at.first <= at.second <= at.third
    ensures Sampled(HandleCalling(cfg, d, i, r, at).(clock := at.third))
  {
    if Objectionable(cfg, d.table.dialogs[i], i, r) { FinishSampled(cfg, d, i, InvalidMessage, at.third); }
    else if r.code < 200 { TryingSampled(d, i, at.third); }
    else if r.code == 200 { EstablishSampled(cfg, d, i, at); }
    else { RefusalSampled(cfg, d, i, r, at.third); }
  }

  lemma HandleSampled(cfg: Config, d: State, r: Response, at: Readings)
    requires Sampled(d) && Linked(d) && d.clock <= at.first <= at.second <= at.third
    ensures Sampled(Handle(cfg, d, r, at).(clock := at.third))
  {
    if r.callId in d.table.byCallId {
      var i := d.table.byCallId[r.callId];
      if d.table.dialogs[i].phase == Calling { CallingSampled(cfg, d, i, r, at); } else { ByeSampled(cfg, d, i, r, at); }
    }
  }

  lemma FireSampled(cfg: Config, d: State, now: int)
    requires Sampled(d) && d.timers != [] && d.clock <= now
    ensures Sampled(Fire(cfg, d, now).(clock := now))
  {
    var t, d1 := d.timers[0], d.(timers := d.timers[1..], clock := now);
    SendSampled(cfg, d1, InviteMsg(cfg, t.index), t.index);
    SendSampled(cfg, d1, ByeMsg(cfg, t.index), t.index);
  }

  lemma NextSampled(cfg: Config, d: State, e: Event)
    requires Sampled(d) && Linked(d) && Enabled(d, e)
    ensures Sampled(Next(cfg, d, e))
  {
    match e
    case OfferAt(i, now) => OfferSampled(cfg, d, i, now);
    case Arrival(r, at) => HandleSampled(cfg, d, r, at);
    case FireAt(now) => FireSampled(cfg, d, now);
    case ExpireOne(_) =>
    case StartCounting =>
    case ReadClock(_) =>
  }

  /** Every set-up and teardown sample of every run is at least 0. */
  lemma {:induction false} RunSampled(cfg: Config, distinct: bool, start: State, es: seq<Event>, d: State)
    requires IsInitial(start) && Leads(cfg, distinct, start, es, d)
    ensures Sampled(d)
    decreases |es|
  {
    if es != [] {
      var m := LeadsLast(cfg, distinct, start, es, d);
      RunSampled(cfg, distinct, start, es[..|es| - 1], m);
      NextSampled(cfg, m, es[|es| - 1]);
    }
  }
}
