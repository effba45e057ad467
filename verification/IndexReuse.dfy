/** Why dialog indices must not repeat: what a repeated one does to the driver. */
module IndexReuse {
  import opened SipMessages
  import opened DriverModel
  import opened PassPredicate

  predicate Plainly(cfg: Config) {
    cfg.provisional == NoProvisional && cfg.sendFails == {} && cfg.maxActive > 0
  }

  /** Dialog `i` was offered at `t` and is all there is. */
  predicate Rings(cfg: Config, d: State, t: int, i: int) {
    && i in d.table.dialogs && Single(cfg, d.table, i, d.table.dialogs[i])
    && d.table.dialogs[i].phase == Calling && d.table.dialogs[i].inviteAt == t && d.clock == t
  }

  function First(t: int, i: int): seq<Timer> {
    [Timer(t + T1_MS, RetransmitInvite, i), Timer(t + TIMER_B_MS, Timeout, i)]
  }

  function Second(t: int, i: int): seq<Timer> {
    [Timer(t + T1_MS, RetransmitInvite, i), Timer(t + T1_MS, RetransmitBye, i)] + Stale(t, i)
  }

  /** The two timeouts of the first use. */
  function Stale(t: int, i: int): seq<Timer> {
    [Timer(t + TIMER_B_MS, Timeout, i), Timer(t + TIMER_B_MS, Timeout, i)]
  }

  lemma ArmFirst(t: int, i: int)
    ensures Armed(Armed([], Timer(t + T1_MS, RetransmitInvite, i)), Timer(t + TIMER_B_MS, Timeout, i)) == First(t, i)
  {
    assert [Timer(t + T1_MS, RetransmitInvite, i)][1..] == [];
  }

  lemma ArmSecond(t: int, i: int)
    ensures Armed(Armed(First(t, i), Timer(t + T1_MS, RetransmitBye, i)), Timer(t + TIMER_B_MS, Timeout, i)) == Second(t, i)
  {
    var bye, out := Timer(t + T1_MS, RetransmitBye, i), Timer(t + TIMER_B_MS, Timeout, i);
    var three := [First(t, i)[0], bye, out];
    assert First(t, i)[1..] == [out];
    assert Armed(First(t, i), bye) == three;
    assert three[1..] == [bye, out] && three[1..][1..] == [out] && three[1..][1..][1..] == [];
    assert Armed([out], out) == [out, out];
    assert Armed([bye, out], out) == [bye, out, out];
  }

  lemma StepOffer(cfg: Config, d: State, t: int, i: int)
    requires Plainly(cfg) && Idle(d.table) && d.timers == [] && d.clock == t
    ensures Linked(d) && Enabled(d, OfferAt(i, t))
    ensures Rings(cfg, Next(cfg, d, OfferAt(i, t)), t, i) && Next(cfg, d, OfferAt(i, t)).timers == First(t, i)
  {
    ArmFirst(t, i);
  }

  lemma StepOk(cfg: Config, d: State, t: int, i: int)
    requires Plainly(cfg) && Rings(cfg, d, t, i) && d.timers == First(t, i)
    ensures Linked(d)
    ensures var d' := Next(cfg, d, OneOk(cfg, d, i));
            && i in d'.table.dialogs && Single(cfg, d'.table, i, d'.table.dialogs[i])
            && d'.table.dialogs[i].phase == ByeSent && d'.timers == Second(t, i) && d'.clock == t
  {
    var contact := "sip:load@" + cfg.target;
    assert contact[0..] == contact;
    assert Contains(contact, contact);
    ArmSecond(t, i);
  }

  lemma StepBye(cfg: Config, d: State, t: int, i: int)
    requires i in d.table.dialogs && Single(cfg, d.table, i, d.table.dialogs[i])
    requires d.table.dialogs[i].phase == ByeSent && d.timers == Second(t, i) && d.clock == t
    ensures Linked(d)
    ensures var d' := Next(cfg, d, OneByeOk(cfg, d, i));
            Idle(d'.table) && d'.timers == Second(t, i) && d'.clock == t
  {}

  lemma StepDrop(cfg: Config, d: State, now: int)
    requires Idle(d.table) && d.timers != [] && d.timers[0].deadline <= now && d.clock <= now
    ensures Linked(d) && Enabled(d, FireAt(now))
    ensures Next(cfg, d, FireAt(now)) == d.(timers := d.timers[1..], clock := now)
  {}

  lemma StepAgain(cfg: Config, d: State, t: int, now: int, i: int)
    requires Plainly(cfg) && Idle(d.table) && d.timers == Stale(t, i) && d.clock <= now
    requires now + T1_MS > t + TIMER_B_MS
    ensures Linked(d) && Enabled(d, OfferAt(i, now))
    ensures var d' := Next(cfg, d, OfferAt(i, now));
            && Rings(cfg, d', now, i) && d'.timers != [] && d'.timers[0] == Timer(t + TIMER_B_MS, Timeout, i)
  {
    var one := Timer(now + T1_MS, RetransmitInvite, i);
    assert Armed(Stale(t, i), one)[0] == Stale(t, i)[0];
    assert Armed(Armed(Stale(t, i), one), Timer(now + TIMER_B_MS, Timeout, i))[0] == Stale(t, i)[0];
  }

  lemma StepStale(cfg: Config, d: State, t: int, now: int, i: int)
    requires Rings(cfg, d, now, i) && d.timers != [] && d.timers[0] == Timer(t + TIMER_B_MS, Timeout, i)
    requires now <= t + TIMER_B_MS
    ensures Linked(d) && Enabled(d, FireAt(t + TIMER_B_MS))
    ensures var d' := Next(cfg, d, FireAt(t + TIMER_B_MS));
            i !in d'.table.dialogs && i in d'.table.ended && d'.table.ended[i] == TransactionTimeout
  {}

  /** Served once, at once. */
  lemma ServedAtOnce(cfg: Config, a: State, i: int) returns (es: seq<Event>, d: State)
    requires IsInitial(a) && Plainly(cfg)
    ensures Leads(cfg, false, a, es, d) && Idle(d.table) && d.timers == Second(a.clock, i) && d.clock == a.clock
    ensures es != [] && es[0] == OfferAt(i, a.clock)
  {
    var t := a.clock;
    StepOffer(cfg, a, t, i);
    LeadsNowhere(cfg, false, a);
    LeadsMore(cfg, false, a, [], a, OfferAt(i, t));
    es, d := [] + [OfferAt(i, t)], Next(cfg, a, OfferAt(i, t));
    StepOk(cfg, d, t, i);
    LeadsMore(cfg, false, a, es, d, OneOk(cfg, d, i));
    es, d := es + [OneOk(cfg, d, i)], Next(cfg, d, OneOk(cfg, d, i));
    StepBye(cfg, d, t, i);
    LeadsMore(cfg, false, a, es, d, OneByeOk(cfg, d, i));
    es, d := es + [OneByeOk(cfg, d, i)], Next(cfg, d, OneByeOk(cfg, d, i));
  }

  lemma Dropped(cfg: Config, a: State, es0: seq<Event>, d0: State, t: int, now: int, i: int) returns (es: seq<Event>, d: State)
    requires Leads(cfg, false, a, es0, d0) && Idle(d0.table) && d0.timers == Second(t, i) && d0.clock == t
    requires now >= t + T1_MS
    ensures Leads(cfg, false, a, es, d) && Idle(d.table) && d.timers == Stale(t, i) && d.clock == now
    ensures es0 <= es
  {
    StepDrop(cfg, d0, now);
    LeadsMore(cfg, false, a, es0, d0, FireAt(now));
    es, d := es0 + [FireAt(now)], Next(cfg, d0, FireAt(now));
    StepDrop(cfg, d, now);
    LeadsMore(cfg, false, a, es, d, FireAt(now));
    es, d := es + [FireAt(now)], Next(cfg, d, FireAt(now));
    assert Second(t, i)[1..][1..] == Stale(t, i);
  }

  /** A dialog that reuses the index of one served earlier is ended as `transaction_timeout` by the
      earlier one's timer, `age` milliseconds after its own INVITE. */
  lemma StaleTimerEndsAnother(cfg: Config, a: State, age: int, i: int) returns (es: seq<Event>, b: State)
    requires IsInitial(a) && Plainly(cfg) && 0 <= age < T1_MS
    ensures Leads(cfg, false, a, es, b) && i in b.table.ended && b.table.ended[i] == TransactionTimeout
    ensures |es| > 2 && es[0] == OfferAt(i, a.clock)
    ensures es[|es| - 2] == OfferAt(i, b.clock - age) && es[|es| - 1] == FireAt(b.clock)
  {
    var t := a.clock;
    var now := t + TIMER_B_MS - age;
    es, b := ServedAtOnce(cfg, a, i);
    es, b := Dropped(cfg, a, es, b, t, now, i);
    StepAgain(cfg, b, t, now, i);
    LeadsMore(cfg, false, a, es, b, OfferAt(i, now));
    es, b := es + [OfferAt(i, now)], Next(cfg, b, OfferAt(i, now));
    StepStale(cfg, b, t, now, i);
    LeadsMore(cfg, false, a, es, b, FireAt(t + TIMER_B_MS));
    es, b := es + [FireAt(t + TIMER_B_MS)], Next(cfg, b, FireAt(t + TIMER_B_MS));
  }
}
