/** The accounting clauses of the result contract, and exactly when a driver summary meets them. */
module ResultContract {
  import opened SipMessages
  import opened DriverModel
  import opened DriverAccounting

  datatype Status = Passed | Failed | EnvironmentFailed

  /** The clauses on counts, responses and errors; `limit` is the manifest's active bound. A
      latency metric is present exactly when it has samples. */
  predicate AccountingClauses(policy: Provisional, limit: nat, status: Status, s: Stats) {
    var trying := CountOf(s.provisional, 100);
    && s.counts.established <= s.counts.offered && s.counts.completed <= s.counts.established
    && 0 <= s.counts.highWater <= limit
    && (forall c :: c in s.provisional ==> 100 <= c < 200)
    && (forall c :: c in s.final ==> 200 <= c < 700)
    && s.counts.completed + ErrorTotal(s.errors) == s.counts.offered
    && CodeSum(s.provisional, 101, 200) == 0
    && (policy == NoProvisional ==> trying == 0)
    && trying <= s.counts.offered
    && (status == Passed && policy == Trying100 ==> trying == s.counts.offered)
    && CountOf(s.final, 200) == s.counts.established + s.counts.completed
    && CodeSum(s.final, 201, 300) == 0
    && CodeSum(s.final, 300, 700) == s.errors.rejected + s.errors.admissionRefused
    && (s.counts.established > 0 ==> |s.setupMs| > 0)
    && (s.counts.completed > 0 ==> |s.teardownMs| > 0)
    && (|s.setupMs| > 0 ==> |s.setupMs| == s.counts.established)
    && (|s.teardownMs| > 0 ==> |s.teardownMs| == s.counts.completed)
  }

  /** 200 is the only 2xx counted and every counted final is a SIP final code. */
  predicate ProfileCodes(s: Stats) {
    forall c :: c in s.final ==> c == 200 || 300 <= c < 700
  }

  /** A passed `trying_100` run saw a 100 for every offered dialog. */
  predicate TryingComplete(policy: Provisional, status: Status, s: Stats) {
    status == Passed && policy == Trying100 ==> CountOf(s.provisional, 100) == s.counts.offered
  }

  lemma ClausesFromBalance(cfg: Config, d: State, status: Status)
    requires Accounted(cfg, d) && |d.table.dialogs| == 0
    requires ProfileCodes(d.stats) && TryingComplete(cfg.provisional, status, d.stats)
    ensures AccountingClauses(cfg.provisional, cfg.maxActive, status, d.stats)
  {
    var s := d.stats;
    TallyBound(d.table.dialogs);
    assert Below(s.final, 700);
    CodeSumSplit(s.final, 201, 300, 700);
    CodeSumZero(s.final, 201, 300);
    CodeSumZero(s.provisional, 101, 200);
  }

  lemma BalanceFromClauses(cfg: Config, d: State, status: Status)
    requires Accounted(cfg, d)
    requires AccountingClauses(cfg.provisional, cfg.maxActive, status, d.stats)
    ensures ProfileCodes(d.stats) && TryingComplete(cfg.provisional, status, d.stats)
  {
    forall c | c in d.stats.final ensures c == 200 || 300 <= c < 700 {
      if 200 < c < 300 { CodeSumBound(d.stats.final, c, 201, 300); assert false; }
    }
  }

  /** For every run that has drained: the summary meets the clauses exactly when the responder kept
      to the profile's status codes and, for a passed run, answered every offer with a 100. */
  lemma SummaryMeetsContract(
    cfg: Config, distinct: bool, start: State, es: seq<Event>, d: State, status: Status)
    requires IsInitial(start) && Leads(cfg, distinct, start, es, d) && |d.table.dialogs| == 0
    ensures AccountingClauses(cfg.provisional, cfg.maxActive, status, d.stats)
       <==> ProfileCodes(d.stats) && TryingComplete(cfg.provisional, status, d.stats)
  {
    RunAccounted(cfg, distinct, start, es, d);
    if ProfileCodes(d.stats) && TryingComplete(cfg.provisional, status, d.stats) {
      ClausesFromBalance(cfg, d, status);
    }
    if AccountingClauses(cfg.provisional, cfg.maxActive, status, d.stats) {
      BalanceFromClauses(cfg, d, status);
    }
  }

  // ---- where the counted codes come from -----------------------------------------------------

  /** The event is a response that is counted under its code: the first 100, or the final, of a live
      dialog of the measured phase that does not end it as invalid. */
  predicate Takes(cfg: Config, d: State, e: Event) {
    && e.Arrival? && e.response.callId in d.table.byCallId
    && var i := d.table.byCallId[e.response.callId];
       && i in d.table.dialogs
       && var g := d.table.dialogs[i];
          && g.counted && !Objectionable(cfg, g, i, e.response)
          && match g.phase
             case Calling => e.response.code >= 200 || !g.provisionalSeen
             case ByeSent => e.response.cseq != INVITE_CSEQ
  }

  /** The tally a response of this code would be counted in. */
  function Bucket(s: Stats, code: nat): map<int, nat> { if code < 200 then s.provisional else s.final }

  predicate SameTallies(a: Stats, b: Stats) { a.provisional == b.provisional && a.final == b.final }

  lemma SendTallies(cfg: Config, d: State, r: Request, i: int)
    ensures SameTallies(Send(cfg, d, r, i).stats, d.stats)
  {}

  /** The tallies after a response is taken in: ticked exactly if it is one of those. */
  ghost predicate Counts(taken: bool, code: nat, a: Stats, b: Stats) {
    if taken && code < 200 then b.final == a.final && b.provisional == Tick(a.provisional, code)
    else if taken then b.provisional == a.provisional && b.final == Tick(a.final, code)
    else SameTallies(a, b)
  }

  lemma EstablishCounts(cfg: Config, d: State, i: int, at: Readings)
    requires i in d.table.dialogs
    ensures Counts(d.table.dialogs[i].counted, 200, d.stats, Establish(cfg, d, i, at).stats)
  {
    var d1 := MarkEstablished(d, i, at);
    SendTallies(cfg, d1, AckMsg(cfg, i), i);
    SendTallies(cfg, Send(cfg, d1, AckMsg(cfg, i), i), ByeMsg(cfg, i), i);
  }

  lemma ByeCounts(cfg: Config, d: State, i: int, r: Response, at: Readings)
    requires i in d.table.dialogs && d.table.dialogs[i].phase == ByeSent
    ensures var g := d.table.dialogs[i];
            Counts(g.counted && !Objectionable(cfg, g, i, r) && r.cseq != INVITE_CSEQ, r.code, d.stats,
                   HandleBye(cfg, d, i, r, at).stats)
  {
    SendTallies(cfg, d.(stats := CountRetransmittedResponse(d.stats, d.table.dialogs[i].counted)), AckMsg(cfg, i), i);
  }

  lemma HandleCounts(cfg: Config, d: State, r: Response, at: Readings)
    requires Linked(d)
    ensures Counts(Takes(cfg, d, Arrival(r, at)), r.code, d.stats, Handle(cfg, d, r, at).stats)
  {
    if r.callId in d.table.byCallId {
      var i := d.table.byCallId[r.callId];
      if d.table.dialogs[i].phase == ByeSent { ByeCounts(cfg, d, i, r, at); }
      else if r.code == 200 { EstablishCounts(cfg, d, i, at); }
    }
  }

  /** Only such a response changes a tally, and then by one under its own code. */
  lemma NextCounts(cfg: Config, d: State, e: Event)
    requires Linked(d) && Enabled(d, e)
    ensures Counts(Takes(cfg, d, e), if e.Arrival? then e.response.code else 0, d.stats, Next(cfg, d, e).stats)
  {
    match e
    case OfferAt(i, now) => SendTallies(cfg, Admit(cfg, d, i, now), InviteMsg(cfg, i), i);
    case Arrival(r, at) => HandleCounts(cfg, d, r, at);
    case FireAt(now) =>
      var d1 := d.(timers := d.timers[1..]);
      SendTallies(cfg, d1, InviteMsg(cfg, d.timers[0].index), d.timers[0].index);
      SendTallies(cfg, d1, ByeMsg(cfg, d.timers[0].index), d.timers[0].index);
    case ExpireOne(_) =>
    case StartCounting =>
    case ReadClock(_) =>
  }

  predicate TakesAt(cfg: Config, ss: seq<State>, es: seq<Event>, k: nat)
    requires k < |es| && |ss| == |es| + 1
  {
    Takes(cfg, ss[k], es[k])
  }

  /** How many of the first `n` events are responses counted under `code`. */
  function Taken(cfg: Config, ss: seq<State>, es: seq<Event>, code: nat, n: nat): nat
    requires n <= |es| && |ss| == |es| + 1
  {
    if n == 0 then 0
    else Taken(cfg, ss, es, code, n - 1) + One(TakesAt(cfg, ss, es, n - 1) && es[n - 1].response.code == code)
  }

  lemma {:induction false} TakenSome(cfg: Config, ss: seq<State>, es: seq<Event>, code: nat, n: nat)
    requires n <= |es| && |ss| == |es| + 1
    ensures Taken(cfg, ss, es, code, n) > 0
       <==> exists k: nat :: k < n && TakesAt(cfg, ss, es, k) && es[k].response.code == code
  {
    if n > 0 { TakenSome(cfg, ss, es, code, n - 1); }
  }

  /** In every run each code is counted as often as such responses of that code came in. */
  lemma {:induction false} TalliesTaken(
    cfg: Config, distinct: bool, ss: seq<State>, es: seq<Event>, code: nat, n: nat)
    requires Traced(cfg, distinct, ss, es) && IsInitial(ss[0]) && n <= |es|
    ensures CountOf(Bucket(ss[n].stats, code), code) == Taken(cfg, ss, es, code, n)
  {
    if n > 0 {
      TalliesTaken(cfg, distinct, ss, es, code, n - 1);
      assert MovesAt(cfg, distinct, ss, es, n - 1);
      NextCounts(cfg, ss[n - 1], es[n - 1]);
    }
  }

  /** The responses counted in the run carried no 2xx but 200 and no code beyond 699. */
  ghost predicate ProfileTaken(cfg: Config, ss: seq<State>, es: seq<Event>)
    requires |ss| == |es| + 1
  {
    forall k: nat :: k < |es| && TakesAt(cfg, ss, es, k) ==>
      es[k].response.code <= 200 || 300 <= es[k].response.code < 700
  }

  lemma ProfileRead(cfg: Config, distinct: bool, ss: seq<State>, es: seq<Event>)
    requires Traced(cfg, distinct, ss, es) && IsInitial(ss[0]) && FinalsBalanced(ss[|es|].stats)
    ensures ProfileCodes(ss[|es|].stats) <==> ProfileTaken(cfg, ss, es)
  {
    var s := ss[|es|].stats;
    forall code: nat | code >= 200
      ensures code in s.final <==> exists k: nat :: k < |es| && TakesAt(cfg, ss, es, k) && es[k].response.code == code
    {
      TalliesTaken(cfg, distinct, ss, es, code, |es|);
      TakenSome(cfg, ss, es, code, |es|);
    }
    if ProfileCodes(s) {
      forall k: nat | k < |es| && TakesAt(cfg, ss, es, k)
        ensures es[k].response.code <= 200 || 300 <= es[k].response.code < 700
      {
        if es[k].response.code > 200 { assert es[k].response.code in s.final; }
      }
    }
  }

  /** The equivalence read off what came in: for every run that has drained, the summary meets the
      clauses if and only if the responses it counted kept to the profile's codes and, for a passed
      `trying_100` run, it counted a 100 for every offer. */
  lemma ResponsesMeetContract(cfg: Config, distinct: bool, ss: seq<State>, es: seq<Event>, status: Status)
    requires Traced(cfg, distinct, ss, es) && IsInitial(ss[0]) && |ss[|es|].table.dialogs| == 0
    ensures AccountingClauses(cfg.provisional, cfg.maxActive, status, ss[|es|].stats)
       <==> && ProfileTaken(cfg, ss, es)
            && (status == Passed && cfg.provisional == Trying100 ==>
                  Taken(cfg, ss, es, 100, |es|) == ss[|es|].stats.counts.offered)
  {
    var d := ss[|es|];
    assert Leads(cfg, distinct, ss[0], es, d);
    RunAccounted(cfg, distinct, ss[0], es, d);
    SummaryMeetsContract(cfg, distinct, ss[0], es, d, status);
    ProfileRead(cfg, distinct, ss, es);
    TalliesTaken(cfg, distinct, ss, es, 100, |es|);
  }

  /** A responder whose only 2xx is 200 and whose codes stop at 699 yields a summary whose totals
      add up, whatever else it sends and in whatever order. */
  lemma ProfileResponderAddsUp(
    cfg: Config, distinct: bool, start: State, es: seq<Event>, d: State)
    requires IsInitial(start) && Leads(cfg, distinct, start, es, d) && |d.table.dialogs| == 0
    requires forall k :: 0 <= k < |es| && es[k].Arrival? ==>
               es[k].response.code <= 699 && !(200 < es[k].response.code < 300)
    ensures AccountingClauses(cfg.provisional, cfg.maxActive, Failed, d.stats)
  {
    var ss: seq<State> :| Traced(cfg, distinct, ss, es) && ss[0] == start && ss[|es|] == d;
    ResponsesMeetContract(cfg, distinct, ss, es, Failed);
  }

  // ---- a run the contract refuses --------------------------------------------------------------

  function AnswerOf(cfg: Config, i: int, code: nat): Response {
    Response(code, CallOf(cfg, i), InviteBranchOf(cfg.seed, cfg.runId, i), FromTagOf(cfg.seed, cfg.runId, i),
             Absent, INVITE_CSEQ, "")
  }

  /** The run: counting starts, one dialog is offered and its INVITE answered with `code`. */
  function OneAnswer(cfg: Config, t: int, i: int, code: nat): seq<Event> {
    [StartCounting, OfferAt(i, t), Arrival(AnswerOf(cfg, i, code), Readings(t, t, t))]
  }

  lemma AnswerEnds(cfg: Config, a: State, i: int, code: nat) returns (m: State, d: State)
    requires IsInitial(a) && cfg.maxActive > 0 && 0 !in cfg.sendFails && code > 200
    ensures var es := OneAnswer(cfg, a.clock, i, code);
            && Moves(cfg, true, a, es[0], a.(counting := true))
            && Moves(cfg, true, a.(counting := true), es[1], m) && Moves(cfg, true, m, es[2], d)
            && d.table.dialogs == map[] && d.stats.final == map[code as int := 1]
  {
    var es, b := OneAnswer(cfg, a.clock, i, code), a.(counting := true);
    m := Next(cfg, b, es[1]);
    assert m.table.dialogs.Keys == {i} && m.table.byCallId == map[CallOf(cfg, i) := i];
    d := Next(cfg, m, es[2]);
  }

  lemma AnswerLeads(cfg: Config, a: State, i: int, code: nat) returns (d: State)
    requires IsInitial(a) && cfg.maxActive > 0 && 0 !in cfg.sendFails && code > 200
    ensures Leads(cfg, true, a, OneAnswer(cfg, a.clock, i, code), d)
    ensures |d.table.dialogs| == 0 && code in d.stats.final
  {
    var es, m := OneAnswer(cfg, a.clock, i, code), a;
    m, d := AnswerEnds(cfg, a, i, code);
    var ss := [a, a.(counting := true), m, d];
    forall k: nat | k < |es| ensures MovesAt(cfg, true, ss, es, k) { assert k == 0 || k == 1 || k == 2; }
    assert Traced(cfg, true, ss, es);
  }

  /** Every other 2xx, and every code beyond 699, is a witness: a run in which it answers one counted
      dialog drains, and fails the clauses whatever its status. */
  lemma OtherCodesRefused(cfg: Config, a: State, i: int, code: nat, status: Status) returns (d: State)
    requires IsInitial(a) && cfg.maxActive > 0 && 0 !in cfg.sendFails
    requires 200 < code < 300 || code >= 700
    ensures Leads(cfg, true, a, OneAnswer(cfg, a.clock, i, code), d) && |d.table.dialogs| == 0
    ensures !AccountingClauses(cfg.provisional, cfg.maxActive, status, d.stats)
  {
    d := AnswerLeads(cfg, a, i, code);
    SummaryMeetsContract(cfg, true, a, OneAnswer(cfg, a.clock, i, code), d, status);
    assert !ProfileCodes(d.stats);
  }
}
