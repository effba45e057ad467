/** What the driver puts on the wire: which datagrams each event hands to the socket. */
module DriverWire {
  import opened SipMessages
  import opened DriverModel
  import opened ResultContract
  import opened DriverLatency

  /** The live dialog in this phase that the response is addressed to. */
  predicate Reaches(d: State, e: Event, i: int, phase: Phase) {
    && e.Arrival? && e.response.callId in d.table.byCallId && d.table.byCallId[e.response.callId] == i
    && i in d.table.dialogs && d.table.dialogs[i].phase == phase
  }

  /** A final other than 200 that the driver accepts as an answer to its INVITE. */
  predicate Refusal(cfg: Config, d: State, e: Event, i: int) {
    && Reaches(d, e, i, Calling) && e.response.code > 200
    && !Objectionable(cfg, d.table.dialogs[i], i, e.response)
  }

  /** A 200 to the INVITE, heard again in teardown or after the end. */
  predicate HeardAgain(d: State, e: Event, i: int) {
    && e.Arrival? && e.response.code == 200
    && if e.response.callId in d.table.byCallId then Reaches(d, e, i, ByeSent) && e.response.cseq == INVITE_CSEQ
       else e.response.callId in d.table.done && d.table.done[e.response.callId] == i && EndsWithInvite(e.response.cseq)
  }

  /** The request that dialog `i` awaits an answer to is due again. */
  predicate DueAgain(d: State, e: Event, i: int, phase: Phase) {
    && e.FireAt? && d.timers != [] && d.timers[0].index == i && i in d.table.dialogs
    && d.table.dialogs[i].phase == phase
    && d.timers[0].kind == if phase == Calling then RetransmitInvite else RetransmitBye
  }

  /** The dialog an event speaks of. */
  function Concerns(d: State, e: Event): int {
    match e
    case OfferAt(i, _) => i
    case Arrival(r, _) =>
      if r.callId in d.table.byCallId then d.table.byCallId[r.callId]
      else if r.callId in d.table.done then d.table.done[r.callId] else 0
    case FireAt(_) => if d.timers == [] then 0 else d.timers[0].index
    case _ => 0
  }

  /** The datagrams an event hands to `sendto`, in order: an INVITE when a dialog is admitted or its
      INVITE is due again; ACK and, unless the ACK failed, BYE for the 200 it waited for; the ACK again
      for a 200 heard again; the ACK of the refused transaction, with the refusal's own To tag, for any
      other final; a BYE that is due again. */
  function Handed(cfg: Config, d: State, e: Event): seq<Request> {
    var i := Concerns(d, e);
    if e.OfferAt? && d.table.active < cfg.maxActive then [InviteMsg(cfg, i)]
    else if Answered(cfg, d, e, Calling) then
      if d.sock.attempts in cfg.sendFails then [AckMsg(cfg, i)] else [AckMsg(cfg, i), ByeMsg(cfg, i)]
    else if Refusal(cfg, d, e, i) then
      [Request(Ack, CallOf(cfg, i), InviteBranchOf(cfg.seed, cfg.runId, i), FromTagOf(cfg.seed, cfg.runId, i),
               e.response.toTag, ACK_CSEQ)]
    else if HeardAgain(d, e, i) then [AckMsg(cfg, i)]
    else if DueAgain(d, e, i, Calling) then [InviteMsg(cfg, i)]
    else if DueAgain(d, e, i, ByeSent) then [ByeMsg(cfg, i)]
    else []
  }

  /** Those of the datagrams that the socket took, the first being its `n`-th. */
  function Taken(cfg: Config, n: nat, handed: seq<Request>): seq<Request>
    decreases |handed|
  {
    if handed == [] then []
    else (if n in cfg.sendFails then [] else [handed[0]]) + Taken(cfg, n + 1, handed[1..])
  }

  ghost predicate Sends(cfg: Config, d: State, handed: seq<Request>, d': State) {
    && d'.sock.attempts == d.sock.attempts + |handed|
    && d'.sock.wire == d.sock.wire + Taken(cfg, d.sock.attempts, handed)
  }

  lemma SendSends(cfg: Config, d: State, r: Request, i: int)
    ensures Sends(cfg, d, [r], Send(cfg, d, r, i)) && Sends(cfg, d, [r], Transmit(cfg, d, r))
  {
    assert [r][1..] == [];
  }

  lemma EstablishSends(cfg: Config, d: State, i: int, at: Readings)
    requires i in d.table.dialogs
    ensures Sends(cfg, d, if SendSucceeds(cfg, d) then [AckMsg(cfg, i), ByeMsg(cfg, i)] else [AckMsg(cfg, i)],
                  Establish(cfg, d, i, at))
  {
    var d1 := MarkEstablished(d, i, at);
    SendSends(cfg, d1, AckMsg(cfg, i), i);
    if SendSucceeds(cfg, d1) {
      var both := [AckMsg(cfg, i), ByeMsg(cfg, i)];
      SendSends(cfg, Send(cfg, d1, AckMsg(cfg, i), i), ByeMsg(cfg, i), i);
      assert both[1..] == [ByeMsg(cfg, i)] && both[1..][1..] == [];
      assert d1.sock == d.sock;
    }
  }

  lemma CallingSends(cfg: Config, d: State, e: Event)
    requires Linked(d) && e.Arrival? && Reaches(d, e, Concerns(d, e), Calling)
    ensures Sends(cfg, d, Handed(cfg, d, e), HandleCalling(cfg, d, Concerns(d, e), e.response, e.at))
  {
    var i, r := Concerns(d, e), e.response;
    if Answered(cfg, d, e, Calling) { EstablishSends(cfg, d, i, e.at); }
    else if Refusal(cfg, d, e, i) {
      SendSends(cfg, d.(stats := CountFinal(d.stats, d.table.dialogs[i].counted, r.code)),
                FailureAckFor(cfg.seed, cfg.runId, i, r.toTag), i);
    }
  }

  lemma ByeSends(cfg: Config, d: State, e: Event)
    requires Linked(d) && e.Arrival? && Reaches(d, e, Concerns(d, e), ByeSent)
    ensures Sends(cfg, d, Handed(cfg, d, e), HandleBye(cfg, d, Concerns(d, e), e.response, e.at))
  {
    var i := Concerns(d, e);
    SendSends(cfg, d.(stats := CountRetransmittedResponse(d.stats, d.table.dialogs[i].counted)), AckMsg(cfg, i), i);
  }

  lemma StraySends(cfg: Config, d: State, e: Event)
    requires e.Arrival? && e.response.callId !in d.table.byCallId
    ensures Sends(cfg, d, Handed(cfg, d, e), HandleStray(cfg, d, e.response))
  {
    if e.response.callId in d.table.done {
      SendSends(cfg, d.(stats := CountRetransmittedResponse(d.stats, d.counting)), AckMsg(cfg, Concerns(d, e)), 0);
    }
  }

  lemma FireSends(cfg: Config, d: State, e: Event)
    requires e.FireAt? && d.timers != []
    ensures Sends(cfg, d, Handed(cfg, d, e), Fire(cfg, d, e.now))
  {
    var i, d1 := d.timers[0].index, d.(timers := d.timers[1..]);
    SendSends(cfg, d1, InviteMsg(cfg, i), i);
    SendSends(cfg, d1, ByeMsg(cfg, i), i);
  }

  /** One event of any run sends exactly those. */
  lemma NextSends(cfg: Config, d: State, e: Event)
    requires Linked(d) && Enabled(d, e)
    ensures Sends(cfg, d, Handed(cfg, d, e), Next(cfg, d, e))
  {
    match e
    case OfferAt(i, now) =>
      if d.table.active < cfg.maxActive { SendSends(cfg, Admit(cfg, d, i, now), InviteMsg(cfg, i), i); }
    case Arrival(r, at) =>
      if r.callId !in d.table.byCallId { StraySends(cfg, d, e); }
      else if d.table.dialogs[Concerns(d, e)].phase == Calling { CallingSends(cfg, d, e); }
      else { ByeSends(cfg, d, e); }
    case FireAt(now) => FireSends(cfg, d, e);
    case ExpireOne(_) =>
    case StartCounting =>
    case ReadClock(_) =>
  }
}
