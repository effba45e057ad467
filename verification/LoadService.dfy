/** Driver and fixture understand each other: a call none of whose datagrams is lost, offered while
    nothing else is in flight, is served to its end. */
module LoadService {
  import opened Wrappers
  import opened SipMessages
  import opened DriverModel
  import opened DriverAccounting
  import opened DriverEffects
  import opened FixtureModel
  import opened LoadSystem
  import opened LoadValidity

  /** Nothing is in flight, both sides have room, and the next three sends get through. */
  ghost predicate Ready(cfg: Config, fc: FixtureConfig, s: Sys, i: int) {
    && s.up == [] && s.down == [] && Linked(s.d) && i !in s.d.table.dialogs
    && s.d.table.active < cfg.maxActive && |s.f.active| < fc.maxActive
    && CallOf(cfg, i) !in s.f.active && CallOf(cfg, i) !in s.d.table.byCallId
    && (forall k :: s.d.sock.attempts <= k < s.d.sock.attempts + 3 ==> k !in cfg.sendFails)
  }

  /** The driver on the way: dialog `i` at this point, everything else as it was in `d0`, and `n` more
      sends. */
  ghost predicate Underway(cfg: Config, d0: State, d: State, i: int, phase: Phase, seen: bool, n: nat) {
    && i in d.table.dialogs && d.table.dialogs - {i} == d0.table.dialogs
    && d.table.byCallId == d0.table.byCallId[CallOf(cfg, i) := i]
    && d.table.dialogs[i].phase == phase && d.table.dialogs[i].provisionalSeen == seen
    && d.table.dialogs[i].counted == d0.counting == d.counting
    && d.sock.attempts == d0.sock.attempts + n && d.clock == d0.clock
    && d.table.active == d0.table.active + 1
    && d.stats.errors == d0.stats.errors && d.stats.counts.completed == d0.stats.counts.completed
    && d.stats.counts.offered == d0.stats.counts.offered + One(d0.counting)
  }

  ghost predicate FixtureAt(fc: FixtureConfig, f0: FixtureState, f: FixtureState, c: CallId) {
    && f.active == f0.active + {c}
    && f.counts == f0.counts.(invites := f0.counts.invites + 1, highWater := Max(f0.counts.highWater, |f0.active| + 1))
  }

  function Now(d: State): Readings { Readings(d.clock, d.clock, d.clock) }

  function Offered(s: Sys, i: int): SysEvent { Local(OfferAt(i, s.d.clock)) }

  lemma OfferStep(cfg: Config, fc: FixtureConfig, s: Sys, i: int)
    requires Ready(cfg, fc, s, i) && OffersFresh(cfg, s.d, OfferAt(i, s.d.clock))
    ensures SysMoves(cfg, fc, s, Offered(s, i), Step(cfg, fc, s, Offered(s, i)))
    ensures var s1 := Step(cfg, fc, s, Offered(s, i));
            && s1 == s.(d := s1.d, up := [InviteMsg(cfg, i)])
            && Underway(cfg, s.d, s1.d, i, Calling, false, 1)
  {
    var d1 := Admit(cfg, s.d, i, s.d.clock);
    SendEffect(cfg, d1, InviteMsg(cfg, i), i);
  }

  lemma InviteStep(cfg: Config, fc: FixtureConfig, s0: Sys, s: Sys, i: int)
    requires Ready(cfg, fc, s0, i) && Linked(s.d) && s == s0.(d := s.d, up := [InviteMsg(cfg, i)])
    requires Matched(cfg, fc)
    ensures SysMoves(cfg, fc, s, ToFixture, Step(cfg, fc, s, ToFixture))
    ensures var s1 := Step(cfg, fc, s, ToFixture);
            && s1 == s.(f := s1.f, up := [], down := if cfg.provisional == Trying100
                                                      then [TryingInvite(cfg, i), OkInvite(cfg, fc, i)]
                                                      else [OkInvite(cfg, fc, i)])
            && FixtureAt(fc, s0.f, s1.f, CallOf(cfg, i))
  {}

  lemma TryingStep(cfg: Config, fc: FixtureConfig, s0: Sys, s: Sys, i: int)
    requires Ready(cfg, fc, s0, i) && Linked(s.d) && cfg.provisional == Trying100
    requires Underway(cfg, s0.d, s.d, i, Calling, false, 1)
    requires s.up == [] && s.down == [TryingInvite(cfg, i), OkInvite(cfg, fc, i)]
    ensures SysMoves(cfg, fc, s, ToDriver(Now(s.d)), Step(cfg, fc, s, ToDriver(Now(s.d))))
    ensures var s1 := Step(cfg, fc, s, ToDriver(Now(s.d)));
            && s1 == s.(d := s1.d, down := [OkInvite(cfg, fc, i)])
            && Underway(cfg, s0.d, s1.d, i, Calling, true, 1)
  {}

  lemma OkStep(cfg: Config, fc: FixtureConfig, s0: Sys, s: Sys, i: int)
    requires Ready(cfg, fc, s0, i) && Linked(s.d) && Matched(cfg, fc)
    requires Underway(cfg, s0.d, s.d, i, Calling, cfg.provisional == Trying100, 1)
    requires s.up == [] && s.down == [OkInvite(cfg, fc, i)]
    ensures SysMoves(cfg, fc, s, ToDriver(Now(s.d)), Step(cfg, fc, s, ToDriver(Now(s.d))))
    ensures var s1 := Step(cfg, fc, s, ToDriver(Now(s.d)));
            && s1 == s.(d := s1.d, up := [AckMsg(cfg, i), ByeMsg(cfg, i)], down := [])
            && Underway(cfg, s0.d, s1.d, i, ByeSent, cfg.provisional == Trying100, 3)
  {
    var r := s.down[0];
    assert r.contact[1..] == "sip:load@" + cfg.target + ">";
    assert Contains(r.contact, "sip:load@" + cfg.target);
    var d1 := MarkEstablished(s.d, i, Now(s.d));
    SendEffect(cfg, d1, AckMsg(cfg, i), i);
    SendEffect(cfg, Send(cfg, d1, AckMsg(cfg, i), i), ByeMsg(cfg, i), i);
  }

  lemma AckStep(cfg: Config, fc: FixtureConfig, s: Sys, i: int)
    requires Linked(s.d) && s.up == [AckMsg(cfg, i), ByeMsg(cfg, i)] && s.down == []
    ensures SysMoves(cfg, fc, s, ToFixture, Step(cfg, fc, s, ToFixture))
    ensures Step(cfg, fc, s, ToFixture) == s.(up := [ByeMsg(cfg, i)])
  {}

  lemma ByeStep(cfg: Config, fc: FixtureConfig, s0: Sys, s: Sys, i: int)
    requires Linked(s.d) && s.up == [ByeMsg(cfg, i)] && s.down == []
    requires FixtureAt(fc, s0.f, s.f, CallOf(cfg, i)) && CallOf(cfg, i) !in s0.f.active
    ensures SysMoves(cfg, fc, s, ToFixture, Step(cfg, fc, s, ToFixture))
    ensures var s1 := Step(cfg, fc, s, ToFixture);
            && s1 == s.(f := FixtureState(s0.f.active, s.f.counts.(completed := s.f.counts.completed + 1)),
                        up := [], down := [OkBye(cfg, fc, i)], completions := s.completions + [CallOf(cfg, i)])
  {
    assert s.f.active - {CallOf(cfg, i)} == s0.f.active;
  }

  lemma EndStep(cfg: Config, fc: FixtureConfig, s0: Sys, s: Sys, i: int)
    requires Ready(cfg, fc, s0, i) && Linked(s.d) && s.up == [] && s.down == [OkBye(cfg, fc, i)]
    requires Underway(cfg, s0.d, s.d, i, ByeSent, cfg.provisional == Trying100, 3)
    ensures SysMoves(cfg, fc, s, ToDriver(Now(s.d)), Step(cfg, fc, s, ToDriver(Now(s.d))))
    ensures var s1 := Step(cfg, fc, s, ToDriver(Now(s.d)));
            && s1 == s.(d := s1.d, down := []) && Done(cfg, s0.d, s1.d, i)
  {
    assert s.d.table.byCallId - {CallOf(cfg, i)} == s0.d.table.byCallId;
  }

  /** Nothing but this dialog is different, and it is completed. */
  ghost predicate Done(cfg: Config, d0: State, d: State, i: int) {
    && StageOf(d.table, i) == Over(Completed) && d.table.dialogs == d0.table.dialogs
    && d.table.byCallId == d0.table.byCallId && d.table.active == d0.table.active
    && d.stats.errors == d0.stats.errors
    && d.stats.counts.offered == d0.stats.counts.offered + One(d0.counting)
    && d.stats.counts.completed == d0.stats.counts.completed + One(d0.counting)
  }

  ghost predicate Served(cfg: Config, s0: Sys, s: Sys, i: int) {
    && Done(cfg, s0.d, s.d, i) && s.up == [] && s.down == [] && s.lost == s0.lost
    && s.completions == s0.completions + [CallOf(cfg, i)]
    && s.f == FixtureState(s0.f.active, FixtureCounts(
                 s0.f.counts.invites + 1, s0.f.counts.completed + 1, s0.f.counts.refused,
                 Max(s0.f.counts.highWater, |s0.f.active| + 1)))
  }

  /** One step of the run from `s0`. */
  lemma Onward(cfg: Config, fc: FixtureConfig, s0: Sys, es: seq<SysEvent>, s: Sys, e: SysEvent)
    returns (fs: seq<SysEvent>, t: Sys)
    requires Evolves(cfg, fc, s0, es, s) && Invariant(cfg, fc, s) && Linked(s.d) && Possible(cfg, s, e)
    ensures fs == es + [e] && t == Step(cfg, fc, s, e) && Evolves(cfg, fc, s0, fs, t) && Invariant(cfg, fc, t)
  {
    fs, t := es + [e], Step(cfg, fc, s, e);
    EvolvesMore(cfg, fc, s0, es, s, e, t);
    StepKeeps(cfg, fc, s, e);
  }

  lemma Admission(cfg: Config, fc: FixtureConfig, s0: Sys, i: int) returns (es: seq<SysEvent>, s: Sys)
    requires Invariant(cfg, fc, s0) && Ready(cfg, fc, s0, i) && StageOf(s0.d.table, i) == Unoffered
    requires Matched(cfg, fc)
    ensures Evolves(cfg, fc, s0, es, s) && Invariant(cfg, fc, s)
    ensures Underway(cfg, s0.d, s.d, i, Calling, cfg.provisional == Trying100, 1)
    ensures s == s0.(d := s.d, f := s.f, down := [OkInvite(cfg, fc, i)]) && FixtureAt(fc, s0.f, s.f, CallOf(cfg, i))
  {
    assert Filed(cfg, s0.d.table, i);
    EvolvesNowhere(cfg, fc, s0);
    OfferStep(cfg, fc, s0, i);
    es, s := Onward(cfg, fc, s0, [], s0, Offered(s0, i));
    InviteStep(cfg, fc, s0, s, i);
    es, s := Onward(cfg, fc, s0, es, s, ToFixture);
    if cfg.provisional == Trying100 {
      TryingStep(cfg, fc, s0, s, i);
      es, s := Onward(cfg, fc, s0, es, s, ToDriver(Now(s.d)));
    }
  }

  lemma Answer(cfg: Config, fc: FixtureConfig, s0: Sys, es: seq<SysEvent>, s: Sys, i: int)
    returns (fs: seq<SysEvent>, t: Sys)
    requires Evolves(cfg, fc, s0, es, s) && Invariant(cfg, fc, s) && Linked(s.d) && Matched(cfg, fc)
    requires Ready(cfg, fc, s0, i) && Underway(cfg, s0.d, s.d, i, Calling, cfg.provisional == Trying100, 1)
    requires s.up == [] && s.down == [OkInvite(cfg, fc, i)]
    ensures Evolves(cfg, fc, s0, fs, t) && Invariant(cfg, fc, t)
    ensures t == s.(d := t.d, up := [ByeMsg(cfg, i)], down := [])
    ensures Underway(cfg, s0.d, t.d, i, ByeSent, cfg.provisional == Trying100, 3)
  {
    OkStep(cfg, fc, s0, s, i);
    fs, t := Onward(cfg, fc, s0, es, s, ToDriver(Now(s.d)));
    AckStep(cfg, fc, t, i);
    fs, t := Onward(cfg, fc, s0, fs, t, ToFixture);
  }

  lemma Teardown(cfg: Config, fc: FixtureConfig, s0: Sys, es: seq<SysEvent>, s: Sys, i: int)
    returns (fs: seq<SysEvent>, t: Sys)
    requires Evolves(cfg, fc, s0, es, s) && Invariant(cfg, fc, s) && Linked(s.d)
    requires Ready(cfg, fc, s0, i) && Underway(cfg, s0.d, s.d, i, ByeSent, cfg.provisional == Trying100, 3)
    requires FixtureAt(fc, s0.f, s.f, CallOf(cfg, i)) && s == s0.(d := s.d, f := s.f, up := [ByeMsg(cfg, i)])
    ensures Evolves(cfg, fc, s0, fs, t) && Served(cfg, s0, t, i)
  {
    ByeStep(cfg, fc, s0, s, i);
    fs, t := Onward(cfg, fc, s0, es, s, ToFixture);
    EndStep(cfg, fc, s0, t, i);
    fs, t := Onward(cfg, fc, s0, fs, t, ToDriver(Now(t.d)));
  }

  /** From any state the system can reach with nothing in flight: a fresh index, offered while both
      sides have room and sent without fault, completes at both, and nothing else is different. */
  lemma ServedWithoutLoss(cfg: Config, fc: FixtureConfig, a: Sys, before: seq<SysEvent>, s0: Sys, i: int)
    returns (es: seq<SysEvent>, s: Sys)
    requires Start(a) && Evolves(cfg, fc, a, before, s0) && Matched(cfg, fc)
    requires s0.up == [] && s0.down == [] && StageOf(s0.d.table, i) == Unoffered
    requires s0.d.table.active < cfg.maxActive && |s0.f.active| < fc.maxActive
    requires forall k :: s0.d.sock.attempts <= k < s0.d.sock.attempts + 3 ==> k !in cfg.sendFails
    ensures Evolves(cfg, fc, s0, es, s) && Served(cfg, s0, s, i)
  {
    EvolvesInvariant(cfg, fc, a, before, s0);
    assert Safe(cfg, fc, s0, i);
    es, s := Admission(cfg, fc, s0, i);
    es, s := Answer(cfg, fc, s0, es, s, i);
    es, s := Teardown(cfg, fc, s0, es, s, i);
  }
}
