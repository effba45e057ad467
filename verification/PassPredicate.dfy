/** The runner's own pass predicate against the result contract it then submits the run to. */
module PassPredicate {
  import opened Wrappers
  import opened SipMessages
  import opened DriverModel
  import opened DriverAccounting
  import opened DriverSamples
  import opened DriverLatency
  import opened ResultContract
  import opened Percentiles

  function Reals(s: seq<int>): seq<real> { seq(|s|, k requires 0 <= k < |s| => s[k] as real) }

  /** The clauses of the pass predicate that speak of the driver's summary. */
  predicate RunnerPasses(s: Stats) {
    var setup := MetricsOf(Reals(s.setupMs));
    && s.counts.offered >= 1_000
    && s.counts.completed * 1_000 >= s.counts.offered * 999
    && s.errors.invalidMessage == s.errors.internalError == s.errors.cleanupTimeout == 0
    && setup.Some? && setup.value.p99 <= 250
  }

  lemma SamplesValid(samples: seq<int>)
    requires samples != [] && forall x :: x in samples ==> x >= 0
    ensures MetricsOf(Reals(samples)).Some? && ValidMetrics(MetricsOf(Reals(samples)).value)
  {
    forall x | x in Reals(samples) ensures x >= 0.0 {
      var k :| 0 <= k < |samples| && Reals(samples)[k] == x;
      assert samples[k] in samples;
    }
    MetricsValid(Reals(samples));
  }

  /** Over every run: the summary's set-up record is that of the times from each counted dialog's last
      offer to its 200, one for each established dialog, and its teardown record that of the times from
      acceptance to the 200 to the BYE, one for each completed; both are valid once they exist, and a
      passing run took at most 250 ms for at least 99 of 100 set-ups. */
  lemma RunLatency(cfg: Config, distinct: bool, ss: seq<State>, es: seq<Event>)
    requires Traced(cfg, distinct, ss, es) && IsInitial(ss[0])
    ensures var s := ss[|es|].stats;
            var setups, teardowns := SetupTimes(cfg, ss, es, |es|), TeardownTimes(cfg, ss, es, |es|);
            && MetricsOf(Reals(s.setupMs)) == MetricsOf(Reals(setups)) && |setups| == s.counts.established
            && MetricsOf(Reals(s.teardownMs)) == MetricsOf(Reals(teardowns)) && |teardowns| == s.counts.completed
            && (setups != [] ==>
                  MetricsOf(Reals(setups)).Some? && ValidMetrics(MetricsOf(Reals(setups)).value))
            && (teardowns != [] ==>
                  MetricsOf(Reals(teardowns)).Some? && ValidMetrics(MetricsOf(Reals(teardowns)).value))
            && (RunnerPasses(s) ==> Count(Reals(setups), RoundsAtMost(250)) * 100 >= |setups| * 99)
  {
    var d := ss[|es|];
    assert Leads(cfg, distinct, ss[0], es, d);
    RunAccounted(cfg, distinct, ss[0], es, d);
    RunSampled(cfg, distinct, ss[0], es, d);
    RunTimes(cfg, distinct, ss, es, |es|);
    if d.stats.setupMs != [] {
      SamplesValid(d.stats.setupMs);
      BoundCoversShare(Reals(d.stats.setupMs), 99, 250);
    }
    if d.stats.teardownMs != [] { SamplesValid(d.stats.teardownMs); }
  }

  /** Under `trying_100` every established dialog was tried first, so a passing run lacks a 100 for
      at most one offer in a thousand, and for none when every offer completed; the contract
      accepts it exactly when none is lacking and the codes were the profile's. */
  lemma PassingRunTried(cfg: Config, distinct: bool, start: State, es: seq<Event>, d: State)
    requires IsInitial(start) && Leads(cfg, distinct, start, es, d) && |d.table.dialogs| == 0
    requires cfg.provisional == Trying100 && RunnerPasses(d.stats)
    ensures var trying := CountOf(d.stats.provisional, 100);
            && d.stats.counts.completed <= trying <= d.stats.counts.offered
            && trying * 1_000 >= d.stats.counts.offered * 999
            && (AccountingClauses(Trying100, cfg.maxActive, Passed, d.stats)
                <==> ProfileCodes(d.stats) && trying == d.stats.counts.offered)
  {
    RunAccounted(cfg, distinct, start, es, d);
    SummaryMeetsContract(cfg, distinct, start, es, d, Passed);
  }

  // ---- a passing run the contract refuses -----------------------------------------------------

  /** A run's books when nothing but the profile's codes came in, at once, and nothing failed. */
  predicate Books(s: Stats, offered: nat, established: nat, completed: nat, trying: nat) {
    && s.counts.offered == offered && s.counts.established == established && s.counts.completed == completed
    && CountOf(s.provisional, 100) == trying && s.errors == Errors(0, 0, 0, 0, 0, 0, 0)
    && (forall c :: c in s.final ==> c == 200)
    && (forall x :: x in s.setupMs ==> x == 0)
  }

  predicate Idle(t: Table) { t.dialogs == map[] && t.byCallId == map[] && t.active == 0 }

  predicate Single(cfg: Config, t: Table, i: int, g: Dialog) {
    t.dialogs == map[i := g] && t.byCallId == map[CallOf(cfg, i) := i] && t.active == 1
  }

  /** Only indices below `n` were finished. */
  ghost predicate Past(cfg: Config, t: Table, n: int) { forall i :: CallOf(cfg, i) in t.done ==> i < n }

  ghost predicate Served(cfg: Config, d: State, n: nat) {
    Idle(d.table) && Past(cfg, d.table, n) && d.counting && d.sock.attempts == 3 * n && Books(d.stats, n, n, n, n)
  }

  ghost predicate Calls(cfg: Config, d: State, n: nat, seen: bool) {
    && n in d.table.dialogs && var g := d.table.dialogs[n];
    && g.phase == Calling && g.counted && g.inviteAt == d.clock && g.provisionalSeen == seen
    && Single(cfg, d.table, n, g) && Past(cfg, d.table, n)
    && d.counting && d.sock.attempts == 3 * n + 1
    && Books(d.stats, n + 1, n, n, n + One(seen))
  }

  ghost predicate Leaves(cfg: Config, d: State, n: nat) {
    && n in d.table.dialogs && var g := d.table.dialogs[n];
    && g.phase == ByeSent && g.counted && Single(cfg, d.table, n, g) && Past(cfg, d.table, n)
    && d.counting && d.sock.attempts == 3 * n + 3
    && Books(d.stats, n + 1, n + 1, n, n + 1)
  }

  function AtOnce(d: State): Readings { Readings(d.clock, d.clock, d.clock) }

  function ReplyTo(r: Request, code: nat, toTag: Param, contact: string): Response {
    Response(code, r.callId, r.branch, r.fromTag, toTag, r.cseq, contact)
  }

  function OneTrying(cfg: Config, d: State, i: int): Event {
    Arrival(ReplyTo(InviteMsg(cfg, i), 100, Absent, ""), AtOnce(d))
  }

  function OneOk(cfg: Config, d: State, i: int): Event {
    Arrival(ReplyTo(InviteMsg(cfg, i), 200, ToTagOf(cfg.seed, cfg.runId, i), "sip:load@" + cfg.target), AtOnce(d))
  }

  function OneByeOk(cfg: Config, d: State, i: int): Event {
    Arrival(ReplyTo(ByeMsg(cfg, i), 200, ToTagOf(cfg.seed, cfg.runId, i), ""), AtOnce(d))
  }

  lemma Offered(cfg: Config, d: State, n: nat)
    requires Served(cfg, d, n) && cfg.maxActive > 0 && 3 * n !in cfg.sendFails
    ensures Linked(d) && Fresh(cfg, d, n) && Calls(cfg, Next(cfg, d, OfferAt(n, d.clock)), n, false)
  {}

  lemma Tried(cfg: Config, d: State, n: nat)
    requires Calls(cfg, d, n, false) && cfg.provisional == Trying100
    ensures Linked(d) && Calls(cfg, Next(cfg, d, OneTrying(cfg, d, n)), n, true)
  {}

  lemma Answered(cfg: Config, d: State, n: nat)
    requires Calls(cfg, d, n, true) && 3 * n + 1 !in cfg.sendFails && 3 * n + 2 !in cfg.sendFails
    ensures Linked(d) && Leaves(cfg, Next(cfg, d, OneOk(cfg, d, n)), n)
  {
    var contact := "sip:load@" + cfg.target;
    assert contact[0..] == contact;
    assert Contains(contact, contact);
  }

  lemma Torn(cfg: Config, d: State, n: nat)
    requires Leaves(cfg, d, n)
    ensures Linked(d) && Served(cfg, Next(cfg, d, OneByeOk(cfg, d, n)), n + 1)
  {}

  /** One more dialog, served at once and without loss. */
  lemma ServeNext(cfg: Config, a: State, es: seq<Event>, d: State, n: nat) returns (es': seq<Event>, d': State)
    requires Leads(cfg, true, a, es, d) && Served(cfg, d, n)
    requires cfg.maxActive > 0 && cfg.provisional == Trying100
    requires forall k :: k in cfg.sendFails ==> k > 3 * n + 2
    ensures Leads(cfg, true, a, es', d') && Served(cfg, d', n + 1)
  {
    Offered(cfg, d, n);
    LeadsMore(cfg, true, a, es, d, OfferAt(n, d.clock));
    es', d' := es + [OfferAt(n, d.clock)], Next(cfg, d, OfferAt(n, d.clock));
    Tried(cfg, d', n);
    LeadsMore(cfg, true, a, es', d', OneTrying(cfg, d', n));
    es', d' := es' + [OneTrying(cfg, d', n)], Next(cfg, d', OneTrying(cfg, d', n));
    Answered(cfg, d', n);
    LeadsMore(cfg, true, a, es', d', OneOk(cfg, d', n));
    es', d' := es' + [OneOk(cfg, d', n)], Next(cfg, d', OneOk(cfg, d', n));
    Torn(cfg, d', n);
    LeadsMore(cfg, true, a, es', d', OneByeOk(cfg, d', n));
    es', d' := es' + [OneByeOk(cfg, d', n)], Next(cfg, d', OneByeOk(cfg, d', n));
  }

  lemma {:induction false} ServeMany(cfg: Config, a: State, n: nat) returns (es: seq<Event>, d: State)
    requires IsInitial(a) && cfg.maxActive > 0 && cfg.provisional == Trying100
    requires forall k :: k in cfg.sendFails ==> k >= 3 * n
    ensures Leads(cfg, true, a, es, d) && Served(cfg, d, n)
  {
    if n == 0 {
      LeadsNowhere(cfg, true, a);
      LeadsMore(cfg, true, a, [], a, StartCounting);
      es, d := [] + [StartCounting], Next(cfg, a, StartCounting);
    } else {
      es, d := ServeMany(cfg, a, n - 1);
      es, d := ServeNext(cfg, a, es, d, n - 1);
    }
  }

  lemma Unsent(cfg: Config, d: State, n: nat)
    requires Served(cfg, d, n) && cfg.maxActive > 0 && 3 * n in cfg.sendFails
    ensures Linked(d) && Fresh(cfg, d, n)
    ensures var d' := Next(cfg, d, OfferAt(n, d.clock));
            && d'.table.dialogs == map[] && d'.stats.counts.offered == n + 1 && d'.stats.counts.completed == n
            && CountOf(d'.stats.provisional, 100) == n && d'.stats.setupMs == d.stats.setupMs
            && d'.stats.errors == d.stats.errors.(transportError := 1)
  {}

  lemma AtOnceIsFast(setup: seq<int>)
    requires setup != [] && forall x :: x in setup ==> x == 0
    ensures MetricsOf(Reals(setup)).Some? && MetricsOf(Reals(setup)).value.p99 == 0
  {
    var samples := Reals(setup);
    forall x | x in samples ensures x == 0.0 {
      var k :| 0 <= k < |samples| && samples[k] == x;
      assert setup[k] in setup;
    }
    ConstantPercentile(samples, 99, 0.0);
  }

  /** `n` dialogs served without fault and one whose INVITE the socket refused. From 999 on the
      runner passes this run, and the contract then refuses it. */
  lemma PassedYetRefused(cfg: Config, a: State, n: nat) returns (es: seq<Event>, d: State)
    requires IsInitial(a) && cfg.maxActive > 0 && cfg.provisional == Trying100 && cfg.sendFails == {3 * n}
    requires n >= 999
    ensures Leads(cfg, true, a, es, d) && |d.table.dialogs| == 0
    ensures RunnerPasses(d.stats)
    ensures !AccountingClauses(Trying100, cfg.maxActive, Passed, d.stats)
  {
    es, d := ServeMany(cfg, a, n);
    Unsent(cfg, d, n);
    LeadsMore(cfg, true, a, es, d, OfferAt(n, d.clock));
    es, d := es + [OfferAt(n, d.clock)], Next(cfg, d, OfferAt(n, d.clock));
    RunAccounted(cfg, true, a, es, d);
    AtOnceIsFast(d.stats.setupMs);
  }
}
