/** What the driver and the fixture count, held against each other over every run. */
module LoadConservation {
  import opened Wrappers
  import opened FiniteSets
  import opened SipMessages
  import opened DriverModel
  import opened DriverAccounting
  import opened DriverEffects
  import opened FixtureModel
  import opened LoadSystem

  /** The completions the driver reports, warm-up included. */
  function Credits(d: State): nat { d.stats.counts.completed + d.stats.warmupCompleted }

  /** The dialogs that ended as completed. */
  function Succeeded(t: Table): set<int> { set i | i in t.ended && StageOf(t, i) == Over(Completed) }

  /** The response is the 200 to a live dialog's BYE. */
  predicate Completes(cfg: Config, d: State, r: Response)
    requires Linked(d)
  {
    && r.callId in d.table.byCallId
    && var i := d.table.byCallId[r.callId];
       && d.table.dialogs[i].phase == ByeSent && r.cseq != INVITE_CSEQ
       && MatchesBye(cfg, i, r) && r.code == 200
  }

  /** No completion is credited, and dialog `i` has not just completed. */
  ghost predicate Uncredited(d: State, d': State, i: int) {
    Credits(d') == Credits(d) && StageOf(d'.table, i) != Over(Completed)
  }

  lemma FinishUncredited(cfg: Config, d: State, i: int, o: Outcome)
    requires i in d.table.dialogs && o != Completed
    ensures Uncredited(d, Finish(cfg, d, i, o), i)
  {}

  lemma SendUncredited(cfg: Config, d: State, r: Request, i: int)
    requires i in d.table.dialogs
    ensures Uncredited(d, Send(cfg, d, r, i), i)
  {
    FinishUncredited(cfg, Transmit(cfg, d, r), i, TransportError);
  }

  lemma EstablishUncredited(cfg: Config, d: State, i: int, at: Readings)
    requires i in d.table.dialogs
    ensures Uncredited(d, Establish(cfg, d, i, at), i)
  {
    var d1 := MarkEstablished(d, i, at);
    SendUncredited(cfg, d1, AckMsg(cfg, i), i);
    if SendSucceeds(cfg, d1) { SendUncredited(cfg, Send(cfg, d1, AckMsg(cfg, i), i), ByeMsg(cfg, i), i); }
  }

  lemma CallingUncredited(cfg: Config, d: State, i: int, r: Response, at: Readings)
    requires i in d.table.dialogs && d.table.dialogs[i].phase == Calling
    ensures Uncredited(d, HandleCalling(cfg, d, i, r, at), i)
  {
    if Objectionable(cfg, d.table.dialogs[i], i, r) { FinishUncredited(cfg, d, i, InvalidMessage); }
    else if r.code == 200 { EstablishUncredited(cfg, d, i, at); }
  }

  lemma ByeCredited(cfg: Config, d: State, i: int, r: Response, at: Readings)
    requires i in d.table.dialogs && d.table.dialogs[i].phase == ByeSent
    ensures var d' := HandleBye(cfg, d, i, r, at);
            if r.cseq != INVITE_CSEQ && MatchesBye(cfg, i, r) && r.code == 200 then
              Credits(d') == Credits(d) + 1 && StageOf(d'.table, i) == Over(Completed)
            else Uncredited(d, d', i)
  {
    if r.cseq == INVITE_CSEQ {
      var d1 := d.(stats := CountRetransmittedResponse(d.stats, d.table.dialogs[i].counted));
      SendUncredited(cfg, d1, AckMsg(cfg, i), i);
    }
  }

  lemma FireUncredited(cfg: Config, d: State, now: int)
    requires d.timers != [] && d.timers[0].index in d.table.dialogs
    ensures Uncredited(d, Fire(cfg, d, now), d.timers[0].index)
  {
    var i := d.timers[0].index;
    var d1 := d.(timers := d.timers[1..]);
    SendUncredited(cfg, d1, InviteMsg(cfg, i), i);
    SendUncredited(cfg, d1, ByeMsg(cfg, i), i);
  }

  lemma OfferUncredited(cfg: Config, d: State, i: int, now: int)
    requires Fresh(cfg, d, i) && Filed(cfg, d.table, i)
    ensures Uncredited(d, Offer(cfg, d, i, now), i)
  {
    SendUncredited(cfg, Admit(cfg, d, i, now), InviteMsg(cfg, i), i);
  }

  /** The dialog an event completes, if any. */
  function Gained(cfg: Config, d: State, e: Event): set<int>
    requires Linked(d)
  {
    if e.Arrival? && Completes(cfg, d, e.response) then {d.table.byCallId[e.response.callId]} else {}
  }

  /** A completion is credited exactly when a dialog completes. */
  lemma NextCredits(cfg: Config, d: State, e: Event)
    requires Linked(d) && Keyed(cfg, d.table) && Enabled(d, e) && OffersFresh(cfg, d, e)
    ensures Credits(Next(cfg, d, e)) == Credits(d) + |Gained(cfg, d, e)|
    ensures var i := Subject(d, e);
            StageOf(Next(cfg, d, e).table, i) == Over(Completed) <==>
              StageOf(d.table, i) == Over(Completed) || i in Gained(cfg, d, e)
  {
    match e
    case OfferAt(i, now) =>
      assert Filed(cfg, d.table, i);
      OfferUncredited(cfg, d, i, now);
    case Arrival(r, at) =>
      if r.callId in d.table.byCallId {
        var i := d.table.byCallId[r.callId];
        if d.table.dialogs[i].phase == Calling { CallingUncredited(cfg, d, i, r, at); }
        else { ByeCredited(cfg, d, i, r, at); }
      }
    case FireAt(now) =>
      if d.timers[0].index in d.table.dialogs { FireUncredited(cfg, d, now); }
    case ExpireOne(i) => FinishUncredited(cfg, d, i, CleanupTimeout);
    case StartCounting =>
    case ReadClock(_) =>
  }

  lemma NextSucceeded(cfg: Config, d: State, e: Event)
    requires Linked(d) && Keyed(cfg, d.table) && Enabled(d, e) && OffersFresh(cfg, d, e)
    requires Credits(d) == |Succeeded(d.table)|
    ensures Credits(Next(cfg, d, e)) == |Succeeded(Next(cfg, d, e).table)|
  {
    NextCredits(cfg, d, e);
    NextEffect(cfg, d, e);
    SucceededGrows(cfg, d.table, Next(cfg, d, e).table, Subject(d, e), Gained(cfg, d, e));
    assert Gained(cfg, d, e) !! Succeeded(d.table);
  }

  lemma SucceededGrows(cfg: Config, t: Table, t': Table, i: int, gained: set<int>)
    requires OthersKept(cfg, t, t', i) && gained <= {i}
    requires StageOf(t', i) == Over(Completed) <==> StageOf(t, i) == Over(Completed) || i in gained
    ensures Succeeded(t') == Succeeded(t) + gained
  {
    forall j ensures j in Succeeded(t') <==> j in Succeeded(t) + gained {
      assert j in Succeeded(t) <==> StageOf(t, j) == Over(Completed);
      assert j in Succeeded(t') <==> StageOf(t', j) == Over(Completed);
    }
  }

  // ---- both sides --------------------------------------------------------------------------------

  /** The books of both sides: what each counter counts, and what the fixture's load never exceeds. */
  ghost predicate Tallied(fc: FixtureConfig, s: Sys) {
    && Credits(s.d) == |Succeeded(s.d.table)|
    && s.f.counts.completed == |s.completions|
    && |s.f.active| <= s.f.counts.highWater <= fc.maxActive
    && |s.f.active| + |s.completions| + s.f.counts.refused <= s.f.counts.invites
  }

  lemma StepTallied(cfg: Config, fc: FixtureConfig, s: Sys, e: SysEvent)
    requires Invariant(cfg, fc, s) && Linked(s.d) && Possible(cfg, s, e) && Tallied(fc, s)
    ensures Tallied(fc, Step(cfg, fc, s, e))
  {
    match e
    case Local(event) => NextSucceeded(cfg, s.d, event);
    case ToDriver(at) => NextSucceeded(cfg, s.d, Arrival(s.down[0], at));
    case ToFixture =>
    case LoseUp(_) =>
    case LoseDown(_) =>
  }

  lemma {:induction false} EvolvesTallied(cfg: Config, fc: FixtureConfig, a: Sys, es: seq<SysEvent>, b: Sys)
    requires Start(a) && Evolves(cfg, fc, a, es, b)
    ensures Tallied(fc, b)
    decreases |es|
  {
    if es == [] {
      assert Succeeded(a.d.table) == {};
    } else {
      var last := |es| - 1;
      var m := EvolvesLast(cfg, fc, a, es, b);
      EvolvesInvariant(cfg, fc, a, es[..last], m);
      EvolvesTallied(cfg, fc, a, es[..last], m);
      StepTallied(cfg, fc, m, es[last]);
    }
  }

  /** Different dialogs have different Call-IDs, so a log holding them all is as long. */
  lemma {:induction false} CallsCounted(cfg: Config, s: set<int>, log: seq<CallId>)
    requires forall i :: i in s ==> CallOf(cfg, i) in log
    ensures |s| <= |log|
    decreases |log|
  {
    if s != {} {
      var i := Pick(s);
      var k :| 0 <= k < |log| && log[k] == CallOf(cfg, i);
      var rest := log[..k] + log[k + 1..];
      forall j | j in s - {i} ensures CallOf(cfg, j) in rest {
        var n :| 0 <= n < |log| && log[n] == CallOf(cfg, j);
        assert n != k && (if n < k then rest[n] else rest[n - 1]) == log[n];
      }
      CallsCounted(cfg, s - {i}, rest);
    }
  }

  /** Over every run, losses included, the driver never reports more completions than the fixture
      counted, nor the fixture more than it was invited to; the fixture's load stays within its
      bound. */
  lemma CompletionsConserved(cfg: Config, fc: FixtureConfig, a: Sys, es: seq<SysEvent>, b: Sys)
    requires Start(a) && Evolves(cfg, fc, a, es, b)
    ensures b.d.stats.counts.completed + b.d.stats.warmupCompleted <= b.f.counts.completed
    ensures b.f.counts.completed + b.f.counts.refused + |b.f.active| <= b.f.counts.invites
    ensures |b.f.active| <= b.f.counts.highWater <= fc.maxActive
  {
    EvolvesInvariant(cfg, fc, a, es, b);
    EvolvesTallied(cfg, fc, a, es, b);
    forall i | i in Succeeded(b.d.table) ensures CallOf(cfg, i) in b.completions {
      assert Safe(cfg, fc, b, i);
    }
    CallsCounted(cfg, Succeeded(b.d.table), b.completions);
  }
}
