/** When the driver can record `invalid_message` against the fixture: never, unless a 100 Trying
    was lost on the way. */
module LoadValidity {
  import opened Wrappers
  import opened FiniteSets
  import opened SipMessages
  import opened DriverModel
  import opened DriverAccounting
  import opened DriverEffects
  import opened FixtureModel
  import opened LoadSystem

  // ---- what the driver holds against a response ------------------------------------------------

  predicate Invalid(t: Table, i: int) { StageOf(t, i) == Over(InvalidMessage) }

  lemma SendNotInvalid(cfg: Config, d: State, r: Request, i: int)
    requires i in d.table.dialogs
    ensures !Invalid(Send(cfg, d, r, i).table, i)
  {}

  lemma EstablishNotInvalid(cfg: Config, d: State, i: int, at: Readings)
    requires i in d.table.dialogs
    ensures !Invalid(Establish(cfg, d, i, at).table, i)
  {
    var d1 := MarkEstablished(d, i, at);
    var d2 := Send(cfg, d1, AckMsg(cfg, i), i);
    SendNotInvalid(cfg, d1, AckMsg(cfg, i), i);
    if SendSucceeds(cfg, d1) { SendNotInvalid(cfg, d2, ByeMsg(cfg, i), i); }
  }

  lemma HandleNotInvalid(cfg: Config, d: State, r: Response, at: Readings, i: int)
    requires Linked(d) && r.callId in d.table.byCallId && d.table.byCallId[r.callId] == i
    ensures Invalid(Handle(cfg, d, r, at).table, i) <==> Objectionable(cfg, d.table.dialogs[i], i, r)
  {
    var g := d.table.dialogs[i];
    if g.phase == Calling {
      EstablishNotInvalid(cfg, d, i, at);
    } else {
      SendNotInvalid(cfg, d.(stats := CountRetransmittedResponse(d.stats, g.counted)), AckMsg(cfg, i), i);
    }
  }

  lemma FireNotInvalid(cfg: Config, d: State, now: int)
    requires d.timers != [] && d.timers[0].index in d.table.dialogs
    ensures !Invalid(Fire(cfg, d, now).table, d.timers[0].index)
  {
    var t := d.timers[0];
    var d1 := d.(timers := d.timers[1..]);
    SendNotInvalid(cfg, d1, InviteMsg(cfg, t.index), t.index);
    SendNotInvalid(cfg, d1, ByeMsg(cfg, t.index), t.index);
  }

  lemma OfferNotInvalid(cfg: Config, d: State, i: int, now: int)
    requires StageOf(d.table, i) == Unoffered
    ensures !Invalid(Offer(cfg, d, i, now).table, i)
  {
    if d.table.active < cfg.maxActive { SendNotInvalid(cfg, Admit(cfg, d, i, now), InviteMsg(cfg, i), i); }
  }

  /** A dialog becomes invalid exactly by an objectionable response of its own. */
  lemma InvalidByResponse(cfg: Config, d: State, e: Event, i: int)
    requires Linked(d) && Keyed(cfg, d.table) && Coherent(cfg, d.table) && Enabled(d, e) && OffersFresh(cfg, d, e)
    requires !Invalid(d.table, i)
    ensures Invalid(Next(cfg, d, e).table, i) <==>
              e.Arrival? && e.response.callId == CallOf(cfg, i) && i in d.table.dialogs
              && Objectionable(cfg, d.table.dialogs[i], i, e.response)
  {
    NextEffect(cfg, d, e);
    match e
    case OfferAt(_, now) =>
      assert Filed(cfg, d.table, i);
      if StageOf(d.table, i) == Unoffered { OfferNotInvalid(cfg, d, i, now); }
    case Arrival(r, at) => ArrivalInvalid(cfg, d, r, at, i);
    case FireAt(now) =>
      if i in d.table.dialogs && i == d.timers[0].index { FireNotInvalid(cfg, d, now); }
    case ExpireOne(_) =>
    case StartCounting =>
    case ReadClock(_) =>
  }

  lemma ArrivalInvalid(cfg: Config, d: State, r: Response, at: Readings, i: int)
    requires Linked(d) && Keyed(cfg, d.table) && Coherent(cfg, d.table) && !Invalid(d.table, i)
    ensures Invalid(Handle(cfg, d, r, at).table, i) <==>
              r.callId == CallOf(cfg, i) && i in d.table.dialogs && Objectionable(cfg, d.table.dialogs[i], i, r)
  {
    HandleEffect(cfg, d, r, at);
    if r.callId in d.table.byCallId && d.table.byCallId[r.callId] == i { HandleNotInvalid(cfg, d, r, at, i); }
  }

  // ---- the 100 Trying ----------------------------------------------------------------------------

  /** The first response in flight to a call that is not a refusal. */
  function FirstAnswer(down: seq<Response>, c: CallId): Option<Response> {
    if down == [] then None
    else if down[0].callId == c && down[0].code != 503 then Some(down[0])
    else FirstAnswer(down[1..], c)
  }

  lemma {:induction false} FirstAnswerAppend(down: seq<Response>, more: seq<Response>, c: CallId)
    ensures FirstAnswer(down + more, c)
         == if FirstAnswer(down, c).Some? then FirstAnswer(down, c) else FirstAnswer(more, c)
  {
    if down == [] {
      assert down + more == more;
    } else {
      FirstAnswerAppend(down[1..], more, c);
      assert (down + more)[1..] == down[1..] + more;
    }
  }

  lemma {:induction false} FirstAnswerWithout(down: seq<Response>, k: nat, c: CallId)
    requires k < |down| && !(down[k].code == 100 && down[k].callId == c)
    requires FirstAnswer(down, c).Some? ==> FirstAnswer(down, c).value.code == 100
    ensures FirstAnswer(Without(down, k), c) == FirstAnswer(down, c)
  {
    if k == 0 {
      assert Without(down, 0) == down[1..];
    } else {
      assert Without(down, k)[1..] == Without(down[1..], k - 1);
      if !(down[0].callId == c && down[0].code != 503) { FirstAnswerWithout(down[1..], k - 1, c); }
    }
  }

  lemma {:induction false} FirstAnswerNone(down: seq<Response>, c: CallId)
    requires forall r :: r in down ==> r.callId != c
    ensures FirstAnswer(down, c) == None
  {
    if down != [] {
      assert down[0] in down;
      forall r | r in down[1..] ensures r.callId != c { assert r in down; }
      FirstAnswerNone(down[1..], c);
    }
  }

  /** Called, and no 100 seen yet. */
  predicate Waiting(dialogs: map<int, Dialog>, i: int) {
    i in dialogs && dialogs[i].phase == Calling && !dialogs[i].provisionalSeen
  }

  /** A caller still waiting for its 100 will meet it before any 200. */
  ghost predicate Awaits(cfg: Config, dialogs: map<int, Dialog>, down: seq<Response>, active: set<CallId>, i: int) {
    Waiting(dialogs, i) ==>
      match FirstAnswer(down, CallOf(cfg, i))
      case None => CallOf(cfg, i) !in active
      case Some(r) => r.code == 100
  }

  /** Both sides run the same seed, run and provisional policy, and the fixture is the target. */
  predicate Matched(cfg: Config, fc: FixtureConfig) {
    && fc.seed == cfg.seed && fc.runId == cfg.runId && fc.provisional == cfg.provisional
    && fc.local == cfg.target
  }

  /** Every caller still waiting for its 100 will meet it, unless one of its own was lost. */
  ghost predicate Orderly(cfg: Config, fc: FixtureConfig, s: Sys) {
    && (cfg.provisional == NoProvisional ==> forall r :: r in s.down ==> r.code != 100)
    && (cfg.provisional == Trying100 ==>
          forall i :: CallOf(cfg, i) !in s.lost ==> Awaits(cfg, s.d.table.dialogs, s.down, s.f.active, i))
  }

  lemma ContactNamesTarget(target: string)
    ensures Contains("<sip:load@" + target + ">", "sip:load@" + target)
  {
    var contact := "<sip:load@" + target + ">";
    assert contact == "<" + ("sip:load@" + target) + ">";
    assert contact[1..] == ("sip:load@" + target) + ">";
    assert "sip:load@" + target <= contact[1..];
  }

  /** The 200 to the call's INVITE reaches a driver that has seen no 100 and insists on one. */
  predicate Premature(cfg: Config, fc: FixtureConfig, s: Sys, i: int) {
    && cfg.provisional == Trying100 && Waiting(s.d.table.dialogs, i)
    && s.down != [] && s.down[0] == OkInvite(cfg, fc, i)
  }

  /** Of all the fixture has in flight, only that can be objectionable on arrival. */
  lemma HeadObjectionable(cfg: Config, fc: FixtureConfig, s: Sys, i: int)
    requires Invariant(cfg, fc, s) && Orderly(cfg, fc, s) && Matched(cfg, fc)
    requires s.down != [] && s.down[0].callId == CallOf(cfg, i) && i in s.d.table.dialogs
    ensures Objectionable(cfg, s.d.table.dialogs[i], i, s.down[0]) <==> Premature(cfg, fc, s, i)
    ensures Premature(cfg, fc, s, i) ==> CallOf(cfg, i) in s.lost
  {
    var r := s.down[0];
    assert ProperReply(cfg, fc, r) && Safe(cfg, fc, s, i);
    ContactNamesTarget(cfg.target);
    if cfg.provisional == Trying100 && CallOf(cfg, i) !in s.lost {
      assert Awaits(cfg, s.d.table.dialogs, s.down, s.f.active, i);
    }
  }

  // ---- what a step keeps -------------------------------------------------------------------------

  function Strikes(d: State): nat { d.stats.errors.invalidMessage }

  lemma SendStrikes(cfg: Config, d: State, r: Request, i: int)
    ensures Strikes(Send(cfg, d, r, i)) == Strikes(d)
  {}

  lemma EstablishStrikes(cfg: Config, d: State, i: int, at: Readings)
    requires i in d.table.dialogs
    ensures Strikes(Establish(cfg, d, i, at)) == Strikes(d)
  {
    var d1 := MarkEstablished(d, i, at);
    SendStrikes(cfg, d1, AckMsg(cfg, i), i);
    SendStrikes(cfg, Send(cfg, d1, AckMsg(cfg, i), i), ByeMsg(cfg, i), i);
  }

  /** The response ends the live dialog it belongs to as invalid. */
  predicate Condemns(cfg: Config, d: State, r: Response)
    requires Linked(d)
  {
    r.callId in d.table.byCallId
    && Objectionable(cfg, d.table.dialogs[d.table.byCallId[r.callId]], d.table.byCallId[r.callId], r)
  }

  lemma HandleStrikes(cfg: Config, d: State, r: Response, at: Readings)
    requires Linked(d)
    ensures Strikes(Handle(cfg, d, r, at)) <= Strikes(d) + One(Condemns(cfg, d, r))
  {
    if r.callId in d.table.byCallId {
      var i := d.table.byCallId[r.callId];
      var g := d.table.dialogs[i];
      if g.phase == Calling { EstablishStrikes(cfg, d, i, at); }
      else { SendStrikes(cfg, d.(stats := CountRetransmittedResponse(d.stats, g.counted)), AckMsg(cfg, i), i); }
    }
  }

  lemma FireStrikes(cfg: Config, d: State, now: int)
    requires d.timers != []
    ensures Strikes(Fire(cfg, d, now)) == Strikes(d)
  {
    var t := d.timers[0];
    var d1 := d.(timers := d.timers[1..]);
    SendStrikes(cfg, d1, InviteMsg(cfg, t.index), t.index);
    SendStrikes(cfg, d1, ByeMsg(cfg, t.index), t.index);
  }

  lemma NextStrikes(cfg: Config, d: State, e: Event)
    requires Linked(d) && Enabled(d, e)
    ensures Strikes(Next(cfg, d, e)) <= Strikes(d) + One(e.Arrival? && Condemns(cfg, d, e.response))
  {
    match e
    case OfferAt(i, now) => SendStrikes(cfg, Admit(cfg, d, i, now), InviteMsg(cfg, i), i);
    case Arrival(r, at) => HandleStrikes(cfg, d, r, at);
    case FireAt(now) => FireStrikes(cfg, d, now);
    case ExpireOne(_) =>
    case StartCounting =>
    case ReadClock(_) =>
  }

  /** A caller waiting for its 100 after an event waited before it, or was just offered; and the
      event did not answer it. */
  lemma WaitingStep(cfg: Config, d: State, e: Event, i: int)
    requires Linked(d) && Keyed(cfg, d.table) && Enabled(d, e) && OffersFresh(cfg, d, e)
    requires Waiting(Next(cfg, d, e).table.dialogs, i)
    ensures StageOf(d.table, i) == Unoffered || Waiting(d.table.dialogs, i)
    ensures e.Arrival? && e.response.callId in d.table.byCallId && d.table.byCallId[e.response.callId] == i
            && MatchesInvite(cfg, i, e.response) ==>
              e.response.code < 200 && !(cfg.provisional == Trying100 && e.response.code == 100)
  {
    NextEffect(cfg, d, e);
    if i == Subject(d, e) {
      match e
      case OfferAt(_, _) =>
      case Arrival(r, at) => WaitingArrival(cfg, d, r, at, i);
      case FireAt(now) => WaitingFire(cfg, d, now);
      case ExpireOne(_) =>
      case StartCounting =>
      case ReadClock(_) =>
    }
  }

  lemma WaitingArrival(cfg: Config, d: State, r: Response, at: Readings, i: int)
    requires Linked(d) && Keyed(cfg, d.table) && Waiting(Handle(cfg, d, r, at).table.dialogs, i)
    ensures r.callId in d.table.byCallId && d.table.byCallId[r.callId] == i ==>
              && Waiting(d.table.dialogs, i)
              && (MatchesInvite(cfg, i, r) ==> r.code < 200 && !(cfg.provisional == Trying100 && r.code == 100))
    ensures r.callId !in d.table.byCallId ==> Waiting(d.table.dialogs, i)
  {
    if r.callId in d.table.byCallId && d.table.byCallId[r.callId] == i {
      if d.table.dialogs[i].phase == Calling {
        if MatchesInvite(cfg, i, r) && r.code == 200 { EstablishLeavesCall(cfg, d, i, at); }
      } else {
        ByeEffect(cfg, d, i, r, at);
      }
    }
  }

  lemma EstablishLeavesCall(cfg: Config, d: State, i: int, at: Readings)
    requires i in d.table.dialogs
    ensures !Waiting(Establish(cfg, d, i, at).table.dialogs, i)
  {
    var d1 := MarkEstablished(d, i, at);
    var d2 := Send(cfg, d1, AckMsg(cfg, i), i);
    SendEffect(cfg, d1, AckMsg(cfg, i), i);
    if SendSucceeds(cfg, d1) { SendEffect(cfg, d2, ByeMsg(cfg, i), i); }
  }

  lemma WaitingFire(cfg: Config, d: State, now: int)
    requires d.timers != [] && Waiting(Fire(cfg, d, now).table.dialogs, d.timers[0].index)
    ensures Waiting(d.table.dialogs, d.timers[0].index)
  {
    var t := d.timers[0];
    var d1 := d.(timers := d.timers[1..]);
    if t.index in d.table.dialogs {
      SendEffect(cfg, d1, InviteMsg(cfg, t.index), t.index);
      SendEffect(cfg, d1, ByeMsg(cfg, t.index), t.index);
    }
  }

  /** A driver event on its own: no response is consumed. */
  lemma LocalOrderly(cfg: Config, fc: FixtureConfig, s: Sys, e: Event)
    requires Invariant(cfg, fc, s) && Linked(s.d) && Orderly(cfg, fc, s)
    requires !e.Arrival? && Enabled(s.d, e) && OffersFresh(cfg, s.d, e)
    ensures Orderly(cfg, fc, Drive(cfg, s, e))
  {
    var s' := Drive(cfg, s, e);
    if cfg.provisional == Trying100 {
      forall i | CallOf(cfg, i) !in s.lost ensures Awaits(cfg, s'.d.table.dialogs, s'.down, s'.f.active, i) {
        assert Awaits(cfg, s.d.table.dialogs, s.down, s.f.active, i);
        if Waiting(s'.d.table.dialogs, i) {
          WaitingStep(cfg, s.d, e, i);
          if StageOf(s.d.table, i) == Unoffered {
            assert Safe(cfg, fc, s, i);
            FirstAnswerNone(s.down, CallOf(cfg, i));
          }
        }
      }
    }
  }

  lemma DeliverAwaits(cfg: Config, fc: FixtureConfig, s: Sys, at: Readings, i: int)
    requires Invariant(cfg, fc, s) && Linked(s.d) && Matched(cfg, fc) && cfg.provisional == Trying100
    requires Awaits(cfg, s.d.table.dialogs, s.down, s.f.active, i)
    requires s.down != [] && Enabled(s.d, Arrival(s.down[0], at))
    ensures Awaits(cfg, Next(cfg, s.d, Arrival(s.down[0], at)).table.dialogs, s.down[1..], s.f.active, i)
  {
    var e := Arrival(s.down[0], at);
    var r := s.down[0];
    var c := CallOf(cfg, i);
    assert Safe(cfg, fc, s, i) && ProperReply(cfg, fc, r);
    if Waiting(Next(cfg, s.d, e).table.dialogs, i) {
      WaitingStep(cfg, s.d, e, i);
      if StageOf(s.d.table, i) == Unoffered { FirstAnswerNone(s.down, c); }
      assert FirstAnswer(s.down, c) == FirstAnswer(s.down[1..], c);
    }
  }

  lemma DeliverOrderly(cfg: Config, fc: FixtureConfig, s: Sys, at: Readings)
    requires Invariant(cfg, fc, s) && Linked(s.d) && Orderly(cfg, fc, s) && Matched(cfg, fc)
    requires s.down != [] && Enabled(s.d, Arrival(s.down[0], at))
    ensures Orderly(cfg, fc, Drive(cfg, s.(down := s.down[1..]), Arrival(s.down[0], at)))
  {
    var s' := Drive(cfg, s.(down := s.down[1..]), Arrival(s.down[0], at));
    if cfg.provisional == Trying100 {
      forall i | CallOf(cfg, i) !in s.lost ensures Awaits(cfg, s'.d.table.dialogs, s'.down, s'.f.active, i) {
        DeliverAwaits(cfg, fc, s, at, i);
      }
    }
  }

  lemma ServeAwaits(cfg: Config, fc: FixtureConfig, s: Sys, i: int)
    requires Invariant(cfg, fc, s) && s.up != [] && Matched(cfg, fc) && cfg.provisional == Trying100
    requires Awaits(cfg, s.d.table.dialogs, s.down, s.f.active, i)
    ensures var reaction := React(fc, s.f, s.up[0]);
            Awaits(cfg, s.d.table.dialogs, s.down + reaction.replies, reaction.next.active, i)
  {
    var r := s.up[0];
    var reaction := React(fc, s.f, r);
    var c := CallOf(cfg, i);
    FirstAnswerAppend(s.down, reaction.replies, c);
    ReactLocal(fc, s.f, r);
    assert ProperRequest(cfg, r) && r in s.up && Safe(cfg, fc, s, i);
    if r.callId != c { FirstAnswerNone(reaction.replies, c); }
  }

  lemma StepOrderly(cfg: Config, fc: FixtureConfig, s: Sys, e: SysEvent)
    requires Invariant(cfg, fc, s) && Linked(s.d) && Possible(cfg, s, e) && Orderly(cfg, fc, s) && Matched(cfg, fc)
    ensures Orderly(cfg, fc, Step(cfg, fc, s, e))
  {
    match e
    case Local(event) => LocalOrderly(cfg, fc, s, event);
    case ToDriver(at) => DeliverOrderly(cfg, fc, s, at);
    case ToFixture =>
      if cfg.provisional == Trying100 {
        forall i | CallOf(cfg, i) !in s.lost
          ensures Awaits(cfg, s.d.table.dialogs, s.down + React(fc, s.f, s.up[0]).replies,
                         React(fc, s.f, s.up[0]).next.active, i)
        {
          ServeAwaits(cfg, fc, s, i);
        }
      }
    case LoseUp(k) =>
    case LoseDown(k) =>
      WithoutMembers(s.down, k);
      if cfg.provisional == Trying100 {
        forall i | CallOf(cfg, i) !in Step(cfg, fc, s, e).lost
          ensures Awaits(cfg, s.d.table.dialogs, Without(s.down, k), s.f.active, i)
        {
          assert Awaits(cfg, s.d.table.dialogs, s.down, s.f.active, i);
          if Waiting(s.d.table.dialogs, i) { FirstAnswerWithout(s.down, k, CallOf(cfg, i)); }
        }
      }
  }

  // ---- who ends invalid --------------------------------------------------------------------------

  /** One step ends a dialog as invalid exactly by delivering its 200 too early. */
  lemma StepInvalid(cfg: Config, fc: FixtureConfig, s: Sys, e: SysEvent, i: int)
    requires Invariant(cfg, fc, s) && Linked(s.d) && Possible(cfg, s, e) && Orderly(cfg, fc, s) && Matched(cfg, fc)
    requires !Invalid(s.d.table, i)
    ensures Invalid(Step(cfg, fc, s, e).d.table, i) <==> e.ToDriver? && Premature(cfg, fc, s, i)
    ensures e.ToDriver? && Premature(cfg, fc, s, i) ==> CallOf(cfg, i) in s.lost
  {
    match e
    case Local(event) => InvalidByResponse(cfg, s.d, event, i);
    case ToDriver(at) =>
      InvalidByResponse(cfg, s.d, Arrival(s.down[0], at), i);
      if s.down[0].callId == CallOf(cfg, i) && i in s.d.table.dialogs { HeadObjectionable(cfg, fc, s, i); }
    case ToFixture =>
    case LoseUp(_) =>
    case LoseDown(_) =>
  }

  /** Somewhere in the run the dialog's 200 was delivered too early. */
  ghost predicate Hurried(cfg: Config, fc: FixtureConfig, a: Sys, es: seq<SysEvent>, i: int) {
    exists k: nat, m: Sys ::
      k < |es| && es[k].ToDriver? && Evolves(cfg, fc, a, es[..k], m) && Premature(cfg, fc, m, i)
  }

  lemma HurriedLast(cfg: Config, fc: FixtureConfig, a: Sys, es: seq<SysEvent>, m: Sys, i: int)
    requires es != [] && Evolves(cfg, fc, a, es[..|es| - 1], m)
    ensures Hurried(cfg, fc, a, es, i) <==>
              Hurried(cfg, fc, a, es[..|es| - 1], i) || (es[|es| - 1].ToDriver? && Premature(cfg, fc, m, i))
  {
    var last := |es| - 1;
    var front := es[..last];
    if Hurried(cfg, fc, a, es, i) {
      var k: nat, n :| k < |es| && es[k].ToDriver? && Evolves(cfg, fc, a, es[..k], n) && Premature(cfg, fc, n, i);
      if k < last { assert front[..k] == es[..k] && front[k] == es[k]; }
      else { EvolvesUnique(cfg, fc, a, front, m, n); }
    }
    if Hurried(cfg, fc, a, front, i) {
      var k: nat, n :| k < |front| && front[k].ToDriver? && Evolves(cfg, fc, a, front[..k], n) && Premature(cfg, fc, n, i);
      assert front[..k] == es[..k] && front[k] == es[k];
    }
  }

  /** With both sides on the same settings, and whatever is lost, delayed or sent again: a dialog ends
      as `invalid_message` exactly when its 200 was delivered while it waited for a 100 the policy
      requires, and then a 100 of its own was lost. */
  lemma {:induction false} InvalidExactlyWhenHurried(
    cfg: Config, fc: FixtureConfig, a: Sys, es: seq<SysEvent>, b: Sys, i: int)
    requires Start(a) && Evolves(cfg, fc, a, es, b) && Matched(cfg, fc)
    ensures Orderly(cfg, fc, b)
    ensures StageOf(b.d.table, i) == Over(InvalidMessage) <==> Hurried(cfg, fc, a, es, i)
    ensures StageOf(b.d.table, i) == Over(InvalidMessage) ==> cfg.provisional == Trying100 && CallOf(cfg, i) in b.lost
    decreases |es|
  {
    if es != [] {
      var last := |es| - 1;
      var m := EvolvesLast(cfg, fc, a, es, b);
      EvolvesInvariant(cfg, fc, a, es[..last], m);
      InvalidExactlyWhenHurried(cfg, fc, a, es[..last], m, i);
      HurriedLast(cfg, fc, a, es, m, i);
      StepOrderly(cfg, fc, m, es[last]);
      if Invalid(m.d.table, i) { StepStage(cfg, fc, m, es[last], i); }
      else { StepInvalid(cfg, fc, m, es[last], i); }
    } else {
      assert a == b;
    }
  }

  /** The dialogs that ended as invalid. */
  function Struck(t: Table): set<int> { set i | i in t.ended && Invalid(t, i) }

  lemma StepStruck(cfg: Config, fc: FixtureConfig, s: Sys, e: Event)
    requires Invariant(cfg, fc, s) && Linked(s.d) && Enabled(s.d, e) && OffersFresh(cfg, s.d, e)
    requires Strikes(s.d) <= |Struck(s.d.table)|
    ensures Strikes(Next(cfg, s.d, e)) <= |Struck(Next(cfg, s.d, e).table)|
  {
    var t, t' := s.d.table, Next(cfg, s.d, e).table;
    NextEffect(cfg, s.d, e);
    NextStrikes(cfg, s.d, e);
    forall i | i in Struck(t) ensures i in Struck(t') { assert StageOf(t', i) == StageOf(t, i); }
    if e.Arrival? && Condemns(cfg, s.d, e.response) {
      var i := t.byCallId[e.response.callId];
      InvalidByResponse(cfg, s.d, e, i);
      assert i in Struck(t') && i !in Struck(t);
      SubsetSize(Struck(t) + {i}, Struck(t'));
    } else {
      SubsetSize(Struck(t), Struck(t'));
    }
  }

  lemma {:induction false} RunStruck(cfg: Config, fc: FixtureConfig, a: Sys, es: seq<SysEvent>, b: Sys)
    requires Start(a) && Evolves(cfg, fc, a, es, b)
    ensures Strikes(b.d) <= |Struck(b.d.table)|
    decreases |es|
  {
    if es != [] {
      var last := |es| - 1;
      var m := EvolvesLast(cfg, fc, a, es, b);
      EvolvesInvariant(cfg, fc, a, es[..last], m);
      RunStruck(cfg, fc, a, es[..last], m);
      match es[last]
      case Local(event) => StepStruck(cfg, fc, m, event);
      case ToDriver(at) => StepStruck(cfg, fc, m, Arrival(m.down[0], at));
      case ToFixture =>
      case LoseUp(_) =>
      case LoseDown(_) =>
    }
  }

  lemma {:induction false} CallsDistinct(cfg: Config, s: set<int>, calls: set<CallId>)
    requires forall i :: i in s ==> CallOf(cfg, i) in calls
    ensures |s| <= |calls|
  {
    if s != {} {
      var i := Pick(s);
      CallsDistinct(cfg, s - {i}, calls - {CallOf(cfg, i)});
    }
  }

  /** No interleaving of offers, retransmissions, responses, timers and losses makes the driver record
      more `invalid_message` than there are calls of which a 100 was lost, and none at all under the
      policy without provisionals. */
  lemma InvalidMessagesBounded(cfg: Config, fc: FixtureConfig, a: Sys, es: seq<SysEvent>, b: Sys)
    requires Start(a) && Evolves(cfg, fc, a, es, b) && Matched(cfg, fc)
    ensures b.d.stats.errors.invalidMessage <= |b.lost|
    ensures cfg.provisional == NoProvisional ==> b.d.stats.errors.invalidMessage == 0
  {
    RunStruck(cfg, fc, a, es, b);
    forall i | i in Struck(b.d.table) ensures CallOf(cfg, i) in b.lost && cfg.provisional == Trying100 {
      InvalidExactlyWhenHurried(cfg, fc, a, es, b, i);
    }
    CallsDistinct(cfg, Struck(b.d.table), b.lost);
    if cfg.provisional == NoProvisional && Struck(b.d.table) != {} { var i := Pick(Struck(b.d.table)); }
  }

  lemma FirstOffer(cfg: Config, fc: FixtureConfig, a: Sys)
    requires Start(a) && cfg.maxActive > 0 && cfg.sendFails == {}
    ensures var e := Local(OfferAt(0, a.d.clock));
            && Linked(a.d) && Possible(cfg, a, e)
            && var s := Step(cfg, fc, a, e);
               && s.up == [InviteMsg(cfg, 0)] && s.down == [] && s.f == a.f && s.d.clock == a.d.clock
               && Linked(s.d) && OnlyFirst(cfg, s.d) && s.lost == {}
  {
    var d1 := Admit(cfg, a.d, 0, a.d.clock);
    SendEffect(cfg, d1, InviteMsg(cfg, 0), 0);
  }

  /** Losing one 100 is enough for the driver to call the fixture's 200 invalid. */
  lemma LostTryingIsBlamed(cfg: Config, fc: FixtureConfig, a: Sys) returns (es: seq<SysEvent>, b: Sys)
    requires Start(a) && Matched(cfg, fc) && cfg.provisional == Trying100
    requires cfg.maxActive > 0 && fc.maxActive > 0 && cfg.sendFails == {}
    ensures Evolves(cfg, fc, a, es, b) && b.lost == {CallOf(cfg, 0)}
    ensures StageOf(b.d.table, 0) == Over(InvalidMessage)
  {
    var e1 := Local(OfferAt(0, a.d.clock));
    FirstOffer(cfg, fc, a);
    var s1 := Step(cfg, fc, a, e1);
    EvolvesNowhere(cfg, fc, a);
    EvolvesMore(cfg, fc, a, [], a, e1, s1);
    es, b := BlameAfterOffer(cfg, fc, a, [] + [e1], s1);
  }

  /** Dialog 0 is the only live one and has seen no 100. */
  predicate OnlyFirst(cfg: Config, d: State) {
    && d.table.byCallId == map[CallOf(cfg, 0) := 0] && 0 in d.table.dialogs
    && d.table.dialogs[0].phase == Calling && !d.table.dialogs[0].provisionalSeen
  }

  lemma ServeFirst(cfg: Config, fc: FixtureConfig, s: Sys)
    requires cfg.provisional == Trying100 && Matched(cfg, fc) && Linked(s.d)
    requires s.up == [InviteMsg(cfg, 0)] && s.down == [] && fc.maxActive > 0 && s.f.active == {}
    ensures Possible(cfg, s, ToFixture)
    ensures var s2 := Step(cfg, fc, s, ToFixture);
            s2.down == [TryingInvite(cfg, 0), OkInvite(cfg, fc, 0)] && s2.d == s.d && s2.lost == s.lost
  {}

  lemma LoseFirst(cfg: Config, fc: FixtureConfig, s: Sys)
    requires Linked(s.d) && s.down == [TryingInvite(cfg, 0), OkInvite(cfg, fc, 0)]
    ensures Possible(cfg, s, LoseDown(0))
    ensures var s3 := Step(cfg, fc, s, LoseDown(0));
            s3.down == [OkInvite(cfg, fc, 0)] && s3.d == s.d && s3.lost == s.lost + {CallOf(cfg, 0)}
  {}

  lemma DeliverFirst(cfg: Config, fc: FixtureConfig, s: Sys, at: Readings)
    requires cfg.provisional == Trying100 && Linked(s.d) && OnlyFirst(cfg, s.d)
    requires s.down == [OkInvite(cfg, fc, 0)] && s.lost == {CallOf(cfg, 0)} && at == Readings(s.d.clock, s.d.clock, s.d.clock)
    ensures Possible(cfg, s, ToDriver(at))
    ensures var b := Step(cfg, fc, s, ToDriver(at));
            b.lost == {CallOf(cfg, 0)} && StageOf(b.d.table, 0) == Over(InvalidMessage)
  {
    HandleNotInvalid(cfg, s.d, s.down[0], at, 0);
  }

  lemma BlameAfterOffer(cfg: Config, fc: FixtureConfig, a: Sys, before: seq<SysEvent>, s1: Sys)
    returns (es: seq<SysEvent>, b: Sys)
    requires Evolves(cfg, fc, a, before, s1) && Matched(cfg, fc) && cfg.provisional == Trying100
    requires s1.up == [InviteMsg(cfg, 0)] && s1.down == [] && fc.maxActive > 0 && s1.f.active == {}
    requires Linked(s1.d) && OnlyFirst(cfg, s1.d) && s1.lost == {}
    ensures Evolves(cfg, fc, a, es, b) && b.lost == {CallOf(cfg, 0)}
    ensures StageOf(b.d.table, 0) == Over(InvalidMessage)
  {
    ServeFirst(cfg, fc, s1);
    var s2 := Step(cfg, fc, s1, ToFixture);
    EvolvesMore(cfg, fc, a, before, s1, ToFixture, s2);
    LoseFirst(cfg, fc, s2);
    var s3 := Step(cfg, fc, s2, LoseDown(0));
    EvolvesMore(cfg, fc, a, before + [ToFixture], s2, LoseDown(0), s3);
    var at := Readings(s3.d.clock, s3.d.clock, s3.d.clock);
    DeliverFirst(cfg, fc, s3, at);
    b := Step(cfg, fc, s3, ToDriver(at));
    EvolvesMore(cfg, fc, a, before + [ToFixture] + [LoseDown(0)], s3, ToDriver(at), b);
    es := before + [ToFixture] + [LoseDown(0)] + [ToDriver(at)];
  }
}
