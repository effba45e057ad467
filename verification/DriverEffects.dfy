/** What one driver event can do, seen from outside: one dialog moves at most one stage, and only
    the messages of its new stage go out. */
module DriverEffects {
  import opened Wrappers
  import opened SipMessages
  import opened DriverModel

  datatype Stage = Unoffered | InCall | InTeardown | Over(outcome: Outcome)

  function StageOf(t: Table, i: int): Stage {
    if i in t.dialogs then (if t.dialogs[i].phase == Calling then InCall else InTeardown)
    else if i in t.ended then Over(t.ended[i])
    else Unoffered
  }

  /** The heard response answers this call's INVITE (BYE) with a 200. */
  predicate HeardOk(cfg: Config, heard: Option<Response>, i: int, cseq: seq<string>) {
    heard.Some? && heard.value.callId == CallOf(cfg, i) && heard.value.code == 200 && heard.value.cseq == cseq
  }

  predicate Move(cfg: Config, a: Stage, b: Stage, heard: Option<Response>, i: int) {
    || a == b
    || (a == Unoffered && (b == InCall || b == Over(TransportError)))
    || (a == InCall && b == InTeardown && HeardOk(cfg, heard, i, INVITE_CSEQ))
    || (a == InCall && b.Over? && b.outcome != Completed)
    || (a == InTeardown && b.Over? && (b.outcome == Completed ==> HeardOk(cfg, heard, i, BYE_CSEQ)))
  }

  /** `r` may go out in a step after which the table is `t`. */
  predicate Proper(cfg: Config, t: Table, r: Request, i: int) {
    || (r.verb == Ack && r.callId == CallOf(cfg, i) && StageOf(t, i) != Unoffered)
    || (r == InviteMsg(cfg, i) && StageOf(t, i) == InCall)
    || (r == ByeMsg(cfg, i) && StageOf(t, i) == InTeardown)
  }

  /** `done` and the outcome log name the same dialogs. */
  predicate Filed(cfg: Config, t: Table, i: int) {
    i in t.ended <==> CallOf(cfg, i) in t.done
  }

  /** Everything but dialog `i` is as it was. */
  ghost predicate OthersKept(cfg: Config, t: Table, t': Table, i: int) {
    && (forall j :: j != i ==>
          && StageOf(t, j) == StageOf(t', j)
          && (j in t.dialogs ==> t'.dialogs[j] == t.dialogs[j]))
    && (forall j :: j != i ==> (Filed(cfg, t, j) <==> Filed(cfg, t', j)))
    && (Filed(cfg, t, i) ==> Filed(cfg, t', i))
  }

  /** `w'` extends `w` by messages that dialog `i` may send once the table is `t`. */
  ghost predicate ProperSends(cfg: Config, w: seq<Request>, t: Table, w': seq<Request>, i: int) {
    && w <= w'
    && forall k :: |w| <= k < |w'| ==> Proper(cfg, t, w'[k], i)
  }

  /** The event concerns dialog `i` only. */
  ghost predicate Effect(cfg: Config, d: State, d': State, i: int, heard: Option<Response>) {
    && OthersKept(cfg, d.table, d'.table, i)
    && Move(cfg, StageOf(d.table, i), StageOf(d'.table, i), heard, i)
    && ProperSends(cfg, d.sock.wire, d'.table, d'.sock.wire, i)
  }

  lemma OthersTrans(cfg: Config, a: Table, b: Table, c: Table, i: int)
    requires OthersKept(cfg, a, b, i) && OthersKept(cfg, b, c, i)
    ensures OthersKept(cfg, a, c, i)
  {}

  lemma FinishEffect(cfg: Config, d: State, i: int, o: Outcome)
    requires i in d.table.dialogs
    ensures OthersKept(cfg, d.table, Finish(cfg, d, i, o).table, i)
    ensures StageOf(Finish(cfg, d, i, o).table, i) == Over(o)
  {}

  /** A send that failed has ended the dialog; one that succeeded has only extended the wire. */
  lemma SendEffect(cfg: Config, d: State, r: Request, i: int)
    requires i in d.table.dialogs
    ensures var d' := Send(cfg, d, r, i);
            && OthersKept(cfg, d.table, d'.table, i)
            && (if SendSucceeds(cfg, d) then d'.table == d.table && d'.sock.wire == d.sock.wire + [r]
                else StageOf(d'.table, i) == Over(TransportError) && d'.sock.wire == d.sock.wire)
  {}

  lemma AdmitEffect(cfg: Config, d: State, i: int, now: int)
    requires StageOf(d.table, i) == Unoffered
    ensures OthersKept(cfg, d.table, Admit(cfg, d, i, now).table, i)
    ensures StageOf(Admit(cfg, d, i, now).table, i) == InCall && Admit(cfg, d, i, now).sock == d.sock
  {}

  lemma OfferEffect(cfg: Config, d: State, i: int, now: int)
    requires StageOf(d.table, i) == Unoffered
    ensures Effect(cfg, d, Offer(cfg, d, i, now), i, None)
  {
    if d.table.active < cfg.maxActive {
      var d1 := Admit(cfg, d, i, now);
      AdmitEffect(cfg, d, i, now);
      SendEffect(cfg, d1, InviteMsg(cfg, i), i);
      OthersTrans(cfg, d.table, d1.table, Send(cfg, d1, InviteMsg(cfg, i), i).table, i);
    }
  }

  lemma LaunchByeEffect(cfg: Config, d: State, i: int, now: int)
    requires StageOf(d.table, i) == InTeardown
    ensures var d' := LaunchBye(cfg, d, i, now);
            && OthersKept(cfg, d.table, d'.table, i)
            && (StageOf(d'.table, i) == InTeardown || StageOf(d'.table, i) == Over(TransportError))
            && d'.sock.wire
               == d.sock.wire + (if StageOf(d'.table, i) == InTeardown then [ByeMsg(cfg, i)] else [])
  {
    SendEffect(cfg, d, ByeMsg(cfg, i), i);
  }

  lemma MarkEffect(cfg: Config, d: State, i: int, at: Readings)
    requires StageOf(d.table, i) == InCall
    ensures OthersKept(cfg, d.table, MarkEstablished(d, i, at).table, i)
    ensures StageOf(MarkEstablished(d, i, at).table, i) == InTeardown && MarkEstablished(d, i, at).sock == d.sock
  {}

  /** The messages of an establishment: the ACK, then the BYE if the dialog is still there. */
  lemma EstablishSends(cfg: Config, d: State, i: int, at: Readings)
    requires StageOf(d.table, i) == InCall
    ensures var d' := Establish(cfg, d, i, at);
            && OthersKept(cfg, d.table, d'.table, i)
            && (StageOf(d'.table, i) == InTeardown || StageOf(d'.table, i) == Over(TransportError))
            && (d'.sock.wire == d.sock.wire || d'.sock.wire == d.sock.wire + [AckMsg(cfg, i)]
                || (StageOf(d'.table, i) == InTeardown
                    && d'.sock.wire == d.sock.wire + [AckMsg(cfg, i)] + [ByeMsg(cfg, i)]))
  {
    var d1 := MarkEstablished(d, i, at);
    var d2 := Send(cfg, d1, AckMsg(cfg, i), i);
    MarkEffect(cfg, d, i, at);
    SendEffect(cfg, d1, AckMsg(cfg, i), i);
    OthersTrans(cfg, d.table, d1.table, d2.table, i);
    if SendSucceeds(cfg, d1) {
      LaunchByeEffect(cfg, d2, i, at.third);
      OthersTrans(cfg, d.table, d2.table, LaunchBye(cfg, d2, i, at.third).table, i);
    }
  }

  lemma EstablishEffect(cfg: Config, d: State, i: int, at: Readings, heard: Option<Response>)
    requires StageOf(d.table, i) == InCall && HeardOk(cfg, heard, i, INVITE_CSEQ)
    ensures Effect(cfg, d, Establish(cfg, d, i, at), i, heard)
  {
    EstablishSends(cfg, d, i, at);
  }

  lemma RefusalEffect(cfg: Config, d: State, i: int, r: Response)
    requires StageOf(d.table, i) == InCall
    ensures Effect(cfg, d, TakeRefusal(cfg, d, i, r), i, Some(r))
  {}

  lemma TryingEffect(cfg: Config, d: State, i: int, heard: Option<Response>)
    requires StageOf(d.table, i) == InCall
    ensures Effect(cfg, d, TakeTrying(d, i), i, heard)
  {}

  lemma InvalidEffect(cfg: Config, d: State, i: int, heard: Option<Response>)
    requires StageOf(d.table, i) == InCall || StageOf(d.table, i) == InTeardown
    ensures Effect(cfg, d, Finish(cfg, d, i, InvalidMessage), i, heard)
  {
    FinishEffect(cfg, d, i, InvalidMessage);
  }

  lemma CallingEffect(cfg: Config, d: State, i: int, r: Response, at: Readings)
    requires StageOf(d.table, i) == InCall && r.callId == CallOf(cfg, i)
    ensures Effect(cfg, d, HandleCalling(cfg, d, i, r, at), i, Some(r))
  {
    if Objectionable(cfg, d.table.dialogs[i], i, r) { InvalidEffect(cfg, d, i, Some(r)); }
    else if r.code < 200 { TryingEffect(cfg, d, i, Some(r)); }
    else if r.code == 200 { EstablishEffect(cfg, d, i, at, Some(r)); }
    else { RefusalEffect(cfg, d, i, r); }
  }

  lemma ByeFinalEffect(cfg: Config, d: State, i: int, r: Response, now: int)
    requires StageOf(d.table, i) == InTeardown && (r.code == 200 ==> HeardOk(cfg, Some(r), i, BYE_CSEQ))
    ensures Effect(cfg, d, TakeByeFinal(cfg, d, i, r.code, now), i, Some(r))
  {}

  lemma ByeEffect(cfg: Config, d: State, i: int, r: Response, at: Readings)
    requires StageOf(d.table, i) == InTeardown && r.callId == CallOf(cfg, i)
    ensures Effect(cfg, d, HandleBye(cfg, d, i, r, at), i, Some(r))
  {
    if r.cseq == INVITE_CSEQ {
      AckAgainEffect(cfg, d, i, r);
    } else if !MatchesBye(cfg, i, r) || r.code < 200 {
      InvalidEffect(cfg, d, i, Some(r));
    } else {
      ByeFinalEffect(cfg, d, i, r, at.first);
    }
  }

  lemma AckAgainEffect(cfg: Config, d: State, i: int, r: Response)
    requires StageOf(d.table, i) == InTeardown
    ensures var d1 := d.(stats := CountRetransmittedResponse(d.stats, d.table.dialogs[i].counted));
            Effect(cfg, d, if r.code == 200 then Send(cfg, d1, AckMsg(cfg, i), i) else d1, i, Some(r))
  {
    SendEffect(cfg, d.(stats := CountRetransmittedResponse(d.stats, d.table.dialogs[i].counted)), AckMsg(cfg, i), i);
  }

  lemma ResendEffect(cfg: Config, d: State, t: Timer, r: Request, interval: int, now: int)
    requires t.index in d.table.dialogs && Proper(cfg, d.table, r, t.index)
    ensures Effect(cfg, d, Resend(cfg, d, t, r, interval, now), t.index, None)
  {
    SendEffect(cfg, d, r, t.index);
  }

  lemma FireEffect(cfg: Config, d: State, now: int)
    requires d.timers != []
    ensures Effect(cfg, d, Fire(cfg, d, now), d.timers[0].index, None)
  {
    var t := d.timers[0];
    var d1 := d.(timers := d.timers[1..]);
    if t.index in d1.table.dialogs {
      var g := d1.table.dialogs[t.index];
      if t.kind == RetransmitInvite && g.phase == Calling {
        ResendEffect(cfg, d1, t, InviteMsg(cfg, t.index), g.retransmitMs * 2, now);
      } else if t.kind == RetransmitBye && g.phase == ByeSent {
        ResendEffect(cfg, d1, t, ByeMsg(cfg, t.index), Min(g.retransmitMs * 2, T2_MS), now);
      }
    }
  }

  /** The response an event delivers, if any. */
  function Heard(e: Event): Option<Response> {
    if e.Arrival? then Some(e.response) else None
  }

  /** The dialog an event concerns. */
  function Subject(d: State, e: Event): int {
    match e
    case OfferAt(i, _) => i
    case Arrival(r, _) =>
      if r.callId in d.table.byCallId then d.table.byCallId[r.callId]
      else if r.callId in d.table.done then d.table.done[r.callId] else 0
    case FireAt(_) => if d.timers == [] then 0 else d.timers[0].index
    case ExpireOne(i) => i
    case StartCounting => 0
    case ReadClock(_) => 0
  }

  /** The Call-ID index and `done` are keyed by the Call-IDs of their dialogs. */
  ghost predicate Keyed(cfg: Config, t: Table) {
    && (forall c :: c in t.byCallId ==> t.byCallId[c] in t.dialogs && c == CallOf(cfg, t.byCallId[c]))
    && (forall c :: c in t.done ==> c == CallOf(cfg, t.done[c]))
    && (forall i :: Filed(cfg, t, i))
  }

  lemma HandleEffect(cfg: Config, d: State, r: Response, at: Readings)
    requires Keyed(cfg, d.table)
    ensures Effect(cfg, d, Handle(cfg, d, r, at), Subject(d, Arrival(r, at)), Some(r))
  {
    if r.callId in d.table.byCallId {
      var i := d.table.byCallId[r.callId];
      if d.table.dialogs[i].phase == Calling { CallingEffect(cfg, d, i, r, at); }
      else { ByeEffect(cfg, d, i, r, at); }
    } else if r.callId in d.table.done {
      var i := d.table.done[r.callId];
      assert Filed(cfg, d.table, i);
      assert StageOf(d.table, i) != Unoffered;
    }
  }

  lemma OfferFreshEffect(cfg: Config, d: State, i: int, now: int)
    requires Keyed(cfg, d.table) && Fresh(cfg, d, i)
    ensures Effect(cfg, d, Offer(cfg, d, i, now), i, None)
  {
    assert Filed(cfg, d.table, i);
    OfferEffect(cfg, d, i, now);
  }

  /** Every event of a run that offers each index once. */
  lemma NextEffect(cfg: Config, d: State, e: Event)
    requires Linked(d) && Keyed(cfg, d.table) && Enabled(d, e) && OffersFresh(cfg, d, e)
    ensures Effect(cfg, d, Next(cfg, d, e), Subject(d, e), Heard(e))
  {
    match e
    case OfferAt(i, now) => OfferFreshEffect(cfg, d, i, now);
    case Arrival(r, at) => HandleEffect(cfg, d, r, at);
    case FireAt(now) => FireEffect(cfg, d, now);
    case ExpireOne(i) => FinishEffect(cfg, d, i, CleanupTimeout);
    case StartCounting =>
    case ReadClock(_) =>
  }
}
