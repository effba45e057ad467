/** Driver and fixture joined by two FIFO channels that may lose datagrams. */
module LoadSystem {
  import opened Wrappers
  import opened FiniteSets
  import opened SipMessages
  import opened DriverModel
  import opened DriverAccounting
  import opened DriverEffects
  import opened FixtureModel

  /** `completions` logs the calls the fixture completed, and `lost` the calls of which a 100 Trying
      was lost. Both are history. */
  datatype Sys = Sys(
    d: State, f: FixtureState, up: seq<Request>, down: seq<Response>,
    completions: seq<CallId>, lost: set<CallId>)

  datatype SysEvent =
    | Local(event: Event)        // an offer, a due timer, an expiry or the start of counting
    | ToDriver(at: Readings)     // the oldest response reaches the driver
    | ToFixture                  // the oldest request reaches the fixture
    | LoseUp(k: nat)             // the k-th request in flight is lost
    | LoseDown(k: nat)           // the k-th response in flight is lost

  function Without<T>(s: seq<T>, k: nat): seq<T>
    requires k < |s|
  {
    s[..k] + s[k + 1..]
  }

  predicate Possible(cfg: Config, s: Sys, e: SysEvent) {
    match e
    case Local(event) => !event.Arrival? && Enabled(s.d, event) && OffersFresh(cfg, s.d, event)
    case ToDriver(at) => s.down != [] && Enabled(s.d, Arrival(s.down[0], at))
    case ToFixture => s.up != []
    case LoseUp(k) => k < |s.up|
    case LoseDown(k) => k < |s.down|
  }

  /** The driver takes one event and its new datagrams enter the channel. */
  function Drive(cfg: Config, s: Sys, e: Event): Sys
    requires Linked(s.d) && Enabled(s.d, e)
  {
    var d := Next(cfg, s.d, e);
    s.(d := d, up := s.up + d.sock.wire[Min(|s.d.sock.wire|, |d.sock.wire|)..])
  }

  function Step(cfg: Config, fc: FixtureConfig, s: Sys, e: SysEvent): Sys
    requires Linked(s.d) && Possible(cfg, s, e)
  {
    match e
    case Local(event) => Drive(cfg, s, event)
    case ToDriver(at) => Drive(cfg, s.(down := s.down[1..]), Arrival(s.down[0], at))
    case ToFixture =>
      var r := s.up[0];
      var reaction := React(fc, s.f, r);
      s.(f := reaction.next, up := s.up[1..], down := s.down + reaction.replies,
         completions := if r.verb == Bye && r.callId in s.f.active then s.completions + [r.callId]
                        else s.completions)
    case LoseUp(k) => s.(up := Without(s.up, k))
    case LoseDown(k) =>
      s.(down := Without(s.down, k), lost := s.lost + (if s.down[k].code == 100 then {s.down[k].callId} else {}))
  }

  predicate Start(s: Sys) {
    && IsInitial(s.d) && s.f == FixtureState({}, FixtureCounts(0, 0, 0, 0))
    && s.up == [] && s.down == [] && s.completions == [] && s.lost == {}
  }

  predicate SysMoves(cfg: Config, fc: FixtureConfig, a: Sys, e: SysEvent, b: Sys) {
    Linked(a.d) && Possible(cfg, a, e) && b == Step(cfg, fc, a, e)
  }

  predicate SysMovesAt(cfg: Config, fc: FixtureConfig, ss: seq<Sys>, es: seq<SysEvent>, k: nat)
    requires k < |es| && |ss| == |es| + 1
  {
    SysMoves(cfg, fc, ss[k], es[k], ss[k + 1])
  }

  /** The states `ss` a run goes through. */
  ghost predicate SysTraced(cfg: Config, fc: FixtureConfig, ss: seq<Sys>, es: seq<SysEvent>) {
    |ss| == |es| + 1 && forall k: nat :: k < |es| ==> SysMovesAt(cfg, fc, ss, es, k)
  }

  /** `b` is reached from `a` by the events `es`. */
  ghost predicate Evolves(cfg: Config, fc: FixtureConfig, a: Sys, es: seq<SysEvent>, b: Sys) {
    exists ss: seq<Sys> :: SysTraced(cfg, fc, ss, es) && ss[0] == a && ss[|es|] == b
  }

  lemma EvolvesNowhere(cfg: Config, fc: FixtureConfig, a: Sys)
    ensures Evolves(cfg, fc, a, [], a)
  {
    assert SysTraced(cfg, fc, [a], []);
  }

  /** The last event of a run. */
  lemma EvolvesLast(cfg: Config, fc: FixtureConfig, a: Sys, es: seq<SysEvent>, b: Sys) returns (m: Sys)
    requires Evolves(cfg, fc, a, es, b) && es != []
    ensures Evolves(cfg, fc, a, es[..|es| - 1], m) && SysMoves(cfg, fc, m, es[|es| - 1], b)
  {
    var ss: seq<Sys> :| SysTraced(cfg, fc, ss, es) && ss[0] == a && ss[|es|] == b;
    var last := |es| - 1;
    m := ss[last];
    assert SysMovesAt(cfg, fc, ss, es, last);
    forall k: nat | k < last ensures SysMovesAt(cfg, fc, ss[..|es|], es[..last], k) {
      assert SysMovesAt(cfg, fc, ss, es, k);
    }
    assert SysTraced(cfg, fc, ss[..|es|], es[..last]);
  }

  /** One more event at the end of a run. */
  lemma EvolvesMore(cfg: Config, fc: FixtureConfig, a: Sys, es: seq<SysEvent>, m: Sys, e: SysEvent, b: Sys)
    requires Evolves(cfg, fc, a, es, m) && SysMoves(cfg, fc, m, e, b)
    ensures Evolves(cfg, fc, a, es + [e], b)
  {
    var ss: seq<Sys> :| SysTraced(cfg, fc, ss, es) && ss[0] == a && ss[|es|] == m;
    var ts, fs := ss + [b], es + [e];
    forall k: nat | k < |fs| ensures SysMovesAt(cfg, fc, ts, fs, k) {
      if k < |es| { assert SysMovesAt(cfg, fc, ss, es, k); }
    }
    assert SysTraced(cfg, fc, ts, fs);
  }

  /** A run has one end. */
  lemma {:induction false} EvolvesUnique(
    cfg: Config, fc: FixtureConfig, a: Sys, es: seq<SysEvent>, b: Sys, c: Sys)
    requires Evolves(cfg, fc, a, es, b) && Evolves(cfg, fc, a, es, c)
    ensures b == c
    decreases |es|
  {
    if es != [] {
      var m := EvolvesLast(cfg, fc, a, es, b);
      var n := EvolvesLast(cfg, fc, a, es, c);
      EvolvesUnique(cfg, fc, a, es[..|es| - 1], m, n);
    }
  }

  // ---- the traffic ------------------------------------------------------------------------

  /** The four answers the fixture has for the driver's dialog `i`. */
  function OkInvite(cfg: Config, fc: FixtureConfig, i: int): Response {
    Accept(fc, InviteMsg(cfg, i), FixtureToTag(fc, CallOf(cfg, i)))
  }
  function TryingInvite(cfg: Config, i: int): Response { Trying(InviteMsg(cfg, i)) }
  function RefuseInvite(cfg: Config, fc: FixtureConfig, i: int): Response { Refuse(fc, InviteMsg(cfg, i)) }
  function OkBye(cfg: Config, fc: FixtureConfig, i: int): Response { Accept(fc, ByeMsg(cfg, i), Absent) }

  predicate Own(cfg: Config, c: CallId) { c.DialogCall? && c.runId == cfg.runId }

  predicate ProperRequest(cfg: Config, r: Request) {
    && Own(cfg, r.callId)
    && (r.verb == Invite ==> r == InviteMsg(cfg, r.callId.index))
    && (r.verb == Bye ==> r == ByeMsg(cfg, r.callId.index))
  }

  predicate ProperReply(cfg: Config, fc: FixtureConfig, r: Response) {
    && Own(cfg, r.callId)
    && var i := r.callId.index;
       r == OkInvite(cfg, fc, i) || r == TryingInvite(cfg, i) || r == RefuseInvite(cfg, fc, i)
       || r == OkBye(cfg, fc, i)
  }

  ghost predicate Traffic(cfg: Config, fc: FixtureConfig, s: Sys) {
    && (forall r :: r in s.up ==> ProperRequest(cfg, r))
    && (forall r :: r in s.down ==> ProperReply(cfg, fc, r))
    && (forall c :: c in s.f.active ==> Own(cfg, c))
  }

  /** No INVITE of the call travels behind one of its BYEs. */
  ghost predicate InviteBeforeBye(cfg: Config, up: seq<Request>, i: int) {
    forall p, q :: 0 <= p < q < |up| ==> !(up[p] == ByeMsg(cfg, i) && up[q] == InviteMsg(cfg, i))
  }

  /** How the driver's stage of a call, the messages in flight and the fixture's books agree. */
  ghost predicate CallSafe(
    cfg: Config, fc: FixtureConfig, stage: Stage, up: seq<Request>, down: seq<Response>,
    active: set<CallId>, completions: seq<CallId>, i: int)
  {
    var c := CallOf(cfg, i);
    && (stage == Unoffered ==>
          InviteMsg(cfg, i) !in up && c !in active && forall r :: r in down ==> r.callId != c)
    && (stage == Unoffered || stage == InCall ==>
          ByeMsg(cfg, i) !in up && c !in completions && OkBye(cfg, fc, i) !in down)
    && (c in completions ==> InviteMsg(cfg, i) !in up && c !in active)
    && multiset(completions)[c] <= 1
    && (stage == InTeardown || ByeMsg(cfg, i) in up || OkInvite(cfg, fc, i) in down ==>
          c in active || c in completions)
    && (OkBye(cfg, fc, i) in down ==> c in completions)
    && (stage == Over(Completed) ==> c in completions)
    && InviteBeforeBye(cfg, up, i)
  }

  ghost predicate Safe(cfg: Config, fc: FixtureConfig, s: Sys, i: int) {
    CallSafe(cfg, fc, StageOf(s.d.table, i), s.up, s.down, s.f.active, s.completions, i)
  }

  ghost predicate Invariant(cfg: Config, fc: FixtureConfig, s: Sys) {
    && Accounted(cfg, s.d) && Keyed(cfg, s.d.table)
    && Traffic(cfg, fc, s)
    && (forall i :: Safe(cfg, fc, s, i))
  }

  // ---- what a driver step keeps --------------------------------------------------------------

  /** What dialog `i`, now at `stage`, may have sent in one step. */
  predicate SentBy(cfg: Config, stage: Stage, outgoing: seq<Request>, i: int) {
    forall r :: r in outgoing ==>
      && r.callId == CallOf(cfg, i)
      && (r.verb == Ack || (r == InviteMsg(cfg, i) && stage == InCall)
          || (r == ByeMsg(cfg, i) && stage == InTeardown))
  }

  lemma OrderedAppend(cfg: Config, up: seq<Request>, outgoing: seq<Request>, i: int)
    requires InviteBeforeBye(cfg, up, i)
    requires InviteMsg(cfg, i) in outgoing ==> ByeMsg(cfg, i) !in up && ByeMsg(cfg, i) !in outgoing
    ensures InviteBeforeBye(cfg, up + outgoing, i)
  {}

  lemma DriveSubject(
    cfg: Config, fc: FixtureConfig, stage: Stage, stage': Stage, up: seq<Request>, outgoing: seq<Request>,
    down: seq<Response>, down': seq<Response>, active: set<CallId>, completions: seq<CallId>, i: int,
    heard: Option<Response>)
    requires CallSafe(cfg, fc, stage, up, down, active, completions, i)
    requires Move(cfg, stage, stage', heard, i) && SentBy(cfg, stage', outgoing, i)
    requires forall r :: r in down ==> ProperReply(cfg, fc, r)
    requires forall r :: r in down' ==> r in down
    requires heard.Some? ==> heard.value in down
    ensures CallSafe(cfg, fc, stage', up + outgoing, down', active, completions, i)
  {
    var c := CallOf(cfg, i);
    if InviteMsg(cfg, i) in outgoing { assert stage' == InCall; }
    if ByeMsg(cfg, i) in outgoing { assert stage' == InTeardown; }
    OrderedAppend(cfg, up, outgoing, i);
    if stage == InCall && stage' == InTeardown {
      assert heard.value == OkInvite(cfg, fc, i);
    }
    if stage == InTeardown && stage' == Over(Completed) {
      assert heard.value == OkBye(cfg, fc, i);
    }
  }

  lemma DriveOther(
    cfg: Config, fc: FixtureConfig, stage: Stage, up: seq<Request>, outgoing: seq<Request>,
    down: seq<Response>, down': seq<Response>, active: set<CallId>, completions: seq<CallId>, j: int)
    requires CallSafe(cfg, fc, stage, up, down, active, completions, j)
    requires forall r :: r in outgoing ==> r.callId != CallOf(cfg, j)
    requires forall r :: r in down' ==> r in down
    ensures CallSafe(cfg, fc, stage, up + outgoing, down', active, completions, j)
  {
    OrderedAppend(cfg, up, outgoing, j);
  }

  /** A driver event, with the channels as it leaves them. */
  lemma DriveSafe(cfg: Config, fc: FixtureConfig, s: Sys, s': Sys, i: int, heard: Option<Response>)
    requires Traffic(cfg, fc, s) && (forall j :: Safe(cfg, fc, s, j))
    requires Effect(cfg, s.d, s'.d, i, heard)
    requires s'.f == s.f && s'.completions == s.completions
    requires s'.up == s.up + s'.d.sock.wire[|s.d.sock.wire|..]
    requires forall r :: r in s'.down ==> r in s.down
    requires heard.Some? ==> heard.value in s.down
    ensures Traffic(cfg, fc, s') && (forall j :: Safe(cfg, fc, s', j))
  {
    var outgoing := s'.d.sock.wire[|s.d.sock.wire|..];
    forall r | r in outgoing ensures Proper(cfg, s'.d.table, r, i) {
      var k :| 0 <= k < |outgoing| && outgoing[k] == r;
      assert s'.d.sock.wire[|s.d.sock.wire| + k] == r;
    }
    forall j ensures Safe(cfg, fc, s', j) {
      assert Safe(cfg, fc, s, j);
      if j == i {
        DriveSubject(cfg, fc, StageOf(s.d.table, i), StageOf(s'.d.table, i), s.up, outgoing, s.down, s'.down,
                     s.f.active, s.completions, i, heard);
      } else {
        DriveOther(cfg, fc, StageOf(s.d.table, j), s.up, outgoing, s.down, s'.down,
                   s.f.active, s.completions, j);
      }
    }
  }

  // ---- what a fixture step keeps ---------------------------------------------------------------

  lemma OrderedTail(cfg: Config, up: seq<Request>, i: int)
    requires up != [] && InviteBeforeBye(cfg, up, i)
    ensures InviteBeforeBye(cfg, up[1..], i)
    ensures up[0] == ByeMsg(cfg, i) ==> InviteMsg(cfg, i) !in up[1..]
  {
    var rest := up[1..];
    forall p, q | 0 <= p < q < |rest|
      ensures !(rest[p] == ByeMsg(cfg, i) && rest[q] == InviteMsg(cfg, i))
    {
      assert rest[p] == up[p + 1] && rest[q] == up[q + 1];
    }
    assert forall k :: 0 <= k < |rest| ==> rest[k] == up[k + 1];
  }

  /** The fixture's effect on the call whose request it reads. */
  lemma ServeSubject(
    cfg: Config, fc: FixtureConfig, stage: Stage, up: seq<Request>, down: seq<Response>,
    f: FixtureState, completions: seq<CallId>, i: int)
    requires up != [] && CallSafe(cfg, fc, stage, up, down, f.active, completions, i)
    requires ProperRequest(cfg, up[0]) && up[0].callId == CallOf(cfg, i)
    ensures var r := up[0];
            var reaction := React(fc, f, r);
            CallSafe(cfg, fc, stage, up[1..], down + reaction.replies, reaction.next.active,
                     if r.verb == Bye && r.callId in f.active then completions + [r.callId] else completions,
                     i)
  {
    var r := up[0];
    assert up == [r] + up[1..];
    OrderedTail(cfg, up, i);
    if r.verb == Bye && r.callId in f.active {
      assert multiset(completions + [r.callId]) == multiset(completions) + multiset{r.callId};
      assert r.callId !in completions;
    }
  }

  /** A reaction concerns the request's own call only. */
  lemma ReactLocal(fc: FixtureConfig, f: FixtureState, r: Request)
    ensures forall x :: x in React(fc, f, r).replies ==> x.callId == r.callId
    ensures forall c :: c != r.callId ==> (c in React(fc, f, r).next.active <==> c in f.active)
  {}

  lemma ServeOther(
    cfg: Config, fc: FixtureConfig, stage: Stage, up: seq<Request>, down: seq<Response>,
    active: set<CallId>, completions: seq<CallId>, j: int,
    replies: seq<Response>, active': set<CallId>, completed: seq<CallId>)
    requires up != [] && CallSafe(cfg, fc, stage, up, down, active, completions, j)
    requires forall x :: x in replies ==> x.callId != CallOf(cfg, j)
    requires CallOf(cfg, j) in active' <==> CallOf(cfg, j) in active
    requires CallOf(cfg, j) !in completed
    ensures CallSafe(cfg, fc, stage, up[1..], down + replies, active', completions + completed, j)
  {
    assert up == [up[0]] + up[1..];
    OrderedTail(cfg, up, j);
    assert multiset(completions + completed) == multiset(completions) + multiset(completed);
  }

  lemma ServeSafe(cfg: Config, fc: FixtureConfig, s: Sys)
    requires s.up != [] && Traffic(cfg, fc, s) && (forall j :: Safe(cfg, fc, s, j))
    requires Linked(s.d) && Possible(cfg, s, ToFixture)
    ensures var s' := Step(cfg, fc, s, ToFixture);
            Traffic(cfg, fc, s') && (forall j :: Safe(cfg, fc, s', j))
  {
    var r := s.up[0];
    var s' := Step(cfg, fc, s, ToFixture);
    assert s.up == [r] + s.up[1..];
    ReactLocal(fc, s.f, r);
    forall j ensures Safe(cfg, fc, s', j) {
      assert Safe(cfg, fc, s, j);
      if r.callId == CallOf(cfg, j) {
        ServeSubject(cfg, fc, StageOf(s.d.table, j), s.up, s.down, s.f, s.completions, j);
      } else {
        var completed := if r.verb == Bye && r.callId in s.f.active then [r.callId] else [];
        ServeOther(cfg, fc, StageOf(s.d.table, j), s.up, s.down, s.f.active, s.completions, j,
                   React(fc, s.f, r).replies, s'.f.active, completed);
        assert s'.completions == s.completions + completed;
      }
    }
    ServeTraffic(cfg, fc, s);
  }

  lemma ServeTraffic(cfg: Config, fc: FixtureConfig, s: Sys)
    requires s.up != [] && Traffic(cfg, fc, s)
    ensures forall x :: x in React(fc, s.f, s.up[0]).replies ==> ProperReply(cfg, fc, x)
    ensures forall c :: c in React(fc, s.f, s.up[0]).next.active ==> Own(cfg, c)
  {
    var r := s.up[0];
    assert ProperRequest(cfg, r);
    var i := r.callId.index;
    assert r.callId == CallOf(cfg, i);
  }

  // ---- what a loss keeps -------------------------------------------------------------------------

  lemma WithoutMembers<T>(s: seq<T>, k: nat)
    requires k < |s|
    ensures forall x :: x in Without(s, k) ==> x in s
  {}

  lemma OrderedWithout(cfg: Config, up: seq<Request>, k: nat, i: int)
    requires k < |up| && InviteBeforeBye(cfg, up, i)
    ensures InviteBeforeBye(cfg, Without(up, k), i)
  {
    var less := Without(up, k);
    forall p, q | 0 <= p < q < |less|
      ensures !(less[p] == ByeMsg(cfg, i) && less[q] == InviteMsg(cfg, i))
    {
      var p', q' := if p < k then p else p + 1, if q < k then q else q + 1;
      assert less[p] == up[p'] && less[q] == up[q'];
    }
  }

  lemma LossSafe(
    cfg: Config, fc: FixtureConfig, stage: Stage, up: seq<Request>, up': seq<Request>,
    down: seq<Response>, down': seq<Response>, active: set<CallId>, completions: seq<CallId>, i: int)
    requires CallSafe(cfg, fc, stage, up, down, active, completions, i)
    requires (forall r :: r in up' ==> r in up) && (forall r :: r in down' ==> r in down)
    requires InviteBeforeBye(cfg, up', i)
    ensures CallSafe(cfg, fc, stage, up', down', active, completions, i)
  {}

  // ---- every run -----------------------------------------------------------------------------------

  lemma DriveKeeps(cfg: Config, fc: FixtureConfig, s: Sys, s1: Sys, e: Event)
    requires Invariant(cfg, fc, s) && Linked(s.d) && Enabled(s.d, e) && OffersFresh(cfg, s.d, e)
    requires s1 == s || (e.Arrival? && s.down != [] && s1 == s.(down := s.down[1..]))
    requires e.Arrival? ==> e.response in s.down
    ensures Invariant(cfg, fc, Drive(cfg, s1, e))
  {
    var s' := Drive(cfg, s1, e);
    var i := Subject(s.d, e);
    NextEffect(cfg, s.d, e);
    NextAccounted(cfg, s.d, e);
    assert forall r :: r in s1.down ==> r in s.down;
    DriveSafe(cfg, fc, s, s', i, Heard(e));
    forall j ensures Filed(cfg, s'.d.table, j) { assert Filed(cfg, s.d.table, j); }
  }

  lemma StepKeeps(cfg: Config, fc: FixtureConfig, s: Sys, e: SysEvent)
    requires Invariant(cfg, fc, s) && Linked(s.d) && Possible(cfg, s, e)
    ensures Invariant(cfg, fc, Step(cfg, fc, s, e))
  {
    match e
    case Local(event) => DriveKeeps(cfg, fc, s, s, event);
    case ToDriver(at) => DriveKeeps(cfg, fc, s, s.(down := s.down[1..]), Arrival(s.down[0], at));
    case ToFixture => ServeSafe(cfg, fc, s);
    case LoseUp(k) => LoseUpKeeps(cfg, fc, s, k);
    case LoseDown(k) => LoseDownKeeps(cfg, fc, s, k);
  }

  lemma LoseUpKeeps(cfg: Config, fc: FixtureConfig, s: Sys, k: nat)
    requires Invariant(cfg, fc, s) && k < |s.up|
    ensures Invariant(cfg, fc, s.(up := Without(s.up, k)))
  {
    WithoutMembers(s.up, k);
    forall i ensures Safe(cfg, fc, s.(up := Without(s.up, k)), i) {
      assert Safe(cfg, fc, s, i);
      OrderedWithout(cfg, s.up, k, i);
      LossSafe(cfg, fc, StageOf(s.d.table, i), s.up, Without(s.up, k), s.down, s.down,
               s.f.active, s.completions, i);
    }
  }

  lemma LoseDownKeeps(cfg: Config, fc: FixtureConfig, s: Sys, k: nat)
    requires Invariant(cfg, fc, s) && k < |s.down|
    ensures forall lost :: Invariant(cfg, fc, s.(down := Without(s.down, k), lost := lost))
  {
    WithoutMembers(s.down, k);
    forall lost, i ensures Safe(cfg, fc, s.(down := Without(s.down, k), lost := lost), i) {
      assert Safe(cfg, fc, s, i);
      LossSafe(cfg, fc, StageOf(s.d.table, i), s.up, s.up, s.down, Without(s.down, k),
               s.f.active, s.completions, i);
    }
  }

  lemma StartInvariant(cfg: Config, fc: FixtureConfig, s: Sys)
    requires Start(s)
    ensures Invariant(cfg, fc, s)
  {
    InitialAccounted(cfg, s.d);
  }

  lemma {:induction false} EvolvesInvariant(
    cfg: Config, fc: FixtureConfig, a: Sys, es: seq<SysEvent>, b: Sys)
    requires Start(a) && Evolves(cfg, fc, a, es, b)
    ensures Invariant(cfg, fc, b)
    decreases |es|
  {
    if es == [] {
      StartInvariant(cfg, fc, a);
    } else {
      var last := |es| - 1;
      var m := EvolvesLast(cfg, fc, a, es, b);
      EvolvesInvariant(cfg, fc, a, es[..last], m);
      StepKeeps(cfg, fc, m, es[last]);
    }
  }

  /** A finished dialog stays finished, with the outcome it had. */
  lemma {:induction false} OverForever(
    cfg: Config, fc: FixtureConfig, a: Sys, es: seq<SysEvent>, b: Sys, i: int)
    requires Invariant(cfg, fc, a) && Evolves(cfg, fc, a, es, b) && StageOf(a.d.table, i).Over?
    ensures Invariant(cfg, fc, b) && StageOf(b.d.table, i) == StageOf(a.d.table, i)
    decreases |es|
  {
    if es != [] {
      var last := |es| - 1;
      var m := EvolvesLast(cfg, fc, a, es, b);
      OverForever(cfg, fc, a, es[..last], m, i);
      StepKeeps(cfg, fc, m, es[last]);
      StepStage(cfg, fc, m, es[last], i);
    }
  }

  /** Only the driver's own events move a dialog, and none moves a finished one. */
  lemma StepStage(cfg: Config, fc: FixtureConfig, s: Sys, e: SysEvent, i: int)
    requires Invariant(cfg, fc, s) && Linked(s.d) && Possible(cfg, s, e)
    ensures StageOf(s.d.table, i).Over? ==>
              StageOf(Step(cfg, fc, s, e).d.table, i) == StageOf(s.d.table, i)
  {
    if e.Local? { NextEffect(cfg, s.d, e.event); }
    if e.ToDriver? { NextEffect(cfg, s.d, Arrival(s.down[0], e.at)); }
  }

  /** The fixture completes no call twice. A dialog the driver ended as completed was completed
      there exactly once, and in no later state is it active there again. */
  lemma CompletedExactlyOnce(
    cfg: Config, fc: FixtureConfig, a: Sys, es: seq<SysEvent>, b: Sys, later: seq<SysEvent>, z: Sys, i: int)
    requires Start(a) && Evolves(cfg, fc, a, es, b) && Evolves(cfg, fc, b, later, z)
    ensures multiset(b.completions)[CallOf(cfg, i)] <= 1
    ensures StageOf(b.d.table, i) == Over(Completed) ==>
              && multiset(b.completions)[CallOf(cfg, i)] == 1
              && CallOf(cfg, i) !in b.f.active
              && multiset(z.completions)[CallOf(cfg, i)] == 1
              && CallOf(cfg, i) !in z.f.active
  {
    EvolvesInvariant(cfg, fc, a, es, b);
    assert Safe(cfg, fc, b, i);
    if StageOf(b.d.table, i) == Over(Completed) {
      OverForever(cfg, fc, b, later, z, i);
      assert Safe(cfg, fc, z, i);
    }
  }

  // ---- no refusal while every dialog completes ---------------------------------------------------

  /** Every dialog that ended, ended as completed. */
  ghost predicate AllCompleted(s: Sys) {
    forall i :: StageOf(s.d.table, i).Over? ==> StageOf(s.d.table, i) == Over(Completed)
  }

  ghost predicate NoRefusal(s: Sys) {
    s.f.counts.refused == 0 && forall r :: r in s.down ==> r.code != 503
  }

  /** The calls the fixture holds are live at the driver, and so is any INVITE in flight. */
  lemma ActiveIsLive(cfg: Config, fc: FixtureConfig, s: Sys)
    requires Invariant(cfg, fc, s) && AllCompleted(s)
    ensures s.f.active <= s.d.table.byCallId.Keys
    ensures forall i :: InviteMsg(cfg, i) in s.up ==> CallOf(cfg, i) in s.d.table.byCallId
  {
    forall c | c in s.f.active ensures c in s.d.table.byCallId {
      assert Safe(cfg, fc, s, c.index) && c == CallOf(cfg, c.index);
    }
    forall i | InviteMsg(cfg, i) in s.up ensures CallOf(cfg, i) in s.d.table.byCallId {
      assert Safe(cfg, fc, s, i);
    }
  }

  lemma RoomForInvite(cfg: Config, fc: FixtureConfig, s: Sys)
    requires Invariant(cfg, fc, s) && AllCompleted(s) && cfg.maxActive <= fc.maxActive
    requires s.up != [] && s.up[0].verb == Invite && s.up[0].callId !in s.f.active
    ensures |s.f.active| < fc.maxActive
  {
    ActiveIsLive(cfg, fc, s);
    var r := s.up[0];
    assert ProperRequest(cfg, r) && r == InviteMsg(cfg, r.callId.index) && r in s.up;
    SubsetSize(s.f.active, s.d.table.byCallId.Keys - {r.callId});
  }

  lemma StepNoRefusal(cfg: Config, fc: FixtureConfig, s: Sys, e: SysEvent)
    requires Invariant(cfg, fc, s) && Linked(s.d) && Possible(cfg, s, e)
    requires cfg.maxActive <= fc.maxActive && AllCompleted(s) && NoRefusal(s)
    ensures NoRefusal(Step(cfg, fc, s, e))
  {
    match e
    case Local(event) =>
    case ToDriver(at) =>
    case ToFixture =>
      if s.up[0].verb == Invite && s.up[0].callId !in s.f.active { RoomForInvite(cfg, fc, s); }
    case LoseUp(k) =>
    case LoseDown(k) => WithoutMembers(s.down, k);
  }

  /** With the driver's bound within the fixture's, a run in which every ended dialog completed
      never sees a 503, and the fixture only holds calls the driver has live. */
  lemma {:induction false} NeverRefused(
    cfg: Config, fc: FixtureConfig, a: Sys, es: seq<SysEvent>, b: Sys)
    requires Start(a) && Evolves(cfg, fc, a, es, b)
    requires cfg.maxActive <= fc.maxActive && AllCompleted(b)
    ensures NoRefusal(b) && b.f.active <= b.d.table.byCallId.Keys
    decreases |es|
  {
    EvolvesInvariant(cfg, fc, a, es, b);
    ActiveIsLive(cfg, fc, b);
    if es != [] {
      var last := |es| - 1;
      var m := EvolvesLast(cfg, fc, a, es, b);
      EvolvesInvariant(cfg, fc, a, es[..last], m);
      forall i | StageOf(m.d.table, i).Over? ensures StageOf(m.d.table, i) == Over(Completed) {
        StepStage(cfg, fc, m, es[last], i);
      }
      NeverRefused(cfg, fc, a, es[..last], m);
      StepNoRefusal(cfg, fc, m, es[last]);
    }
  }
}
