/** The responder's books over a batch: what it answers, what it holds and what it counts, each read
    off the requests. */
module FixtureLedger {
  import opened SipMessages
  import opened DriverModel
  import opened DriverAccounting
  import opened FixtureModel

  /** What a request is to the responder that holds `active` calls. */
  datatype Role = Opening | Overload | Repeat | Closing | LateBye | Silent

  function RoleOf(fc: FixtureConfig, active: set<CallId>, r: Request): Role {
    match r.verb
    case Invite => if r.callId in active then Repeat else if |active| < fc.maxActive then Opening else Overload
    case Bye => if r.callId in active then Closing else LateBye
    case Ack => Silent
  }

  /** The calls held after one more request. */
  function HeldAfter(fc: FixtureConfig, active: set<CallId>, r: Request): set<CallId> {
    match RoleOf(fc, active, r)
    case Opening => active + {r.callId}
    case Closing => active - {r.callId}
    case _ => active
  }

  function Front(batch: seq<Request>): seq<Request>
    requires batch != []
  {
    batch[..|batch| - 1]
  }

  function Last(batch: seq<Request>): Request
    requires batch != []
  {
    batch[|batch| - 1]
  }

  /** The calls held after a batch: those opened and not closed since. */
  function Held(fc: FixtureConfig, active: set<CallId>, batch: seq<Request>): set<CallId> {
    if batch == [] then active else HeldAfter(fc, Held(fc, active, Front(batch)), Last(batch))
  }

  /** The role of the last request of a batch when it came. */
  function LastRole(fc: FixtureConfig, active: set<CallId>, batch: seq<Request>): Role
    requires batch != []
  {
    RoleOf(fc, Held(fc, active, Front(batch)), Last(batch))
  }

  /** How many requests of a batch had this role when they came. */
  function Tally(fc: FixtureConfig, active: set<CallId>, batch: seq<Request>, role: Role): nat {
    if batch == [] then 0
    else Tally(fc, active, Front(batch), role) + One(LastRole(fc, active, batch) == role)
  }

  /** The status codes of the answers to a request. */
  function Codes(fc: FixtureConfig, role: Role): seq<nat> {
    match role
    case Opening => if fc.provisional == Trying100 then [100, 200] else [200]
    case Overload => [503]
    case Silent => []
    case _ => [200]
  }

  function AllCodes(fc: FixtureConfig, active: set<CallId>, batch: seq<Request>): seq<nat> {
    if batch == [] then [] else AllCodes(fc, active, Front(batch)) + Codes(fc, LastRole(fc, active, batch))
  }

  function CodesOf(replies: seq<Response>): seq<nat> { seq(|replies|, k requires 0 <= k < |replies| => replies[k].code) }

  /** The most calls held after any of the requests, or `high` if that is more. */
  function Peak(fc: FixtureConfig, active: set<CallId>, batch: seq<Request>, high: nat): nat {
    if batch == [] then high
    else
      var before, now := Peak(fc, active, Front(batch), high), |Held(fc, active, batch)|;
      if before < now then now else before
  }

  lemma StepLedger(fc: FixtureConfig, f: FixtureState, r: Request)
    ensures var role, n := RoleOf(fc, f.active, r), React(fc, f, r).next;
            && n.active == HeldAfter(fc, f.active, r)
            && n.counts.invites == f.counts.invites + One(r.verb == Invite)
            && n.counts.completed == f.counts.completed + One(role == Closing)
            && n.counts.refused == f.counts.refused + One(role == Overload)
            && (|f.active| <= f.counts.highWater ==>
                  n.counts.highWater == if f.counts.highWater < |n.active| then |n.active| else f.counts.highWater)
  {}

  lemma StepSize(fc: FixtureConfig, active: set<CallId>, r: Request)
    ensures var role := RoleOf(fc, active, r);
            |HeldAfter(fc, active, r)| == |active| + One(role == Opening) - One(role == Closing)
  {}

  lemma StepCodes(fc: FixtureConfig, f: FixtureState, r: Request)
    ensures CodesOf(React(fc, f, r).replies) == Codes(fc, RoleOf(fc, f.active, r))
  {}

  lemma CodesJoin(a: seq<Response>, b: seq<Response>)
    ensures CodesOf(a + b) == CodesOf(a) + CodesOf(b)
  {}

  lemma {:induction false} BatchHeld(fc: FixtureConfig, f: FixtureState, batch: seq<Request>)
    ensures ReactAll(fc, f, batch).next.active == Held(fc, f.active, batch)
  {
    if batch != [] {
      BatchHeld(fc, f, Front(batch));
      StepLedger(fc, ReactAll(fc, f, Front(batch)).next, Last(batch));
    }
  }

  /** The answers to a batch. */
  lemma {:induction false} BatchCodes(fc: FixtureConfig, f: FixtureState, batch: seq<Request>)
    ensures CodesOf(ReactAll(fc, f, batch).replies) == AllCodes(fc, f.active, batch)
  {
    if batch != [] {
      var before := ReactAll(fc, f, Front(batch));
      BatchCodes(fc, f, Front(batch));
      BatchHeld(fc, f, Front(batch));
      StepCodes(fc, before.next, Last(batch));
      CodesJoin(before.replies, React(fc, before.next, Last(batch)).replies);
    }
  }

  ghost predicate Booked(fc: FixtureConfig, f: FixtureState, batch: seq<Request>, end: FixtureState) {
    var a := f.active;
    && end.counts.invites == f.counts.invites + Tally(fc, a, batch, Opening)
         + Tally(fc, a, batch, Overload) + Tally(fc, a, batch, Repeat)
    && end.counts.refused == f.counts.refused + Tally(fc, a, batch, Overload)
    && end.counts.completed == f.counts.completed + Tally(fc, a, batch, Closing)
    && end.counts.completed + |end.active| == f.counts.completed + |a| + Tally(fc, a, batch, Opening)
    && |end.active| <= end.counts.highWater == Peak(fc, a, batch, f.counts.highWater)
  }

  lemma BookedMore(fc: FixtureConfig, f: FixtureState, batch: seq<Request>, before: FixtureState, after: FixtureState)
    requires batch != [] && Booked(fc, f, Front(batch), before) && before.active == Held(fc, f.active, Front(batch))
    requires after == React(fc, before, Last(batch)).next && after.active == Held(fc, f.active, batch)
    ensures Booked(fc, f, batch, after)
  {
    StepLedger(fc, before, Last(batch));
    StepSize(fc, before.active, Last(batch));
  }

  /** The books after a batch, from any state whose high water covers what is held: INVITEs are openings,
      overloads and repeats; every opening was completed or is still held; and the high water is the most
      that was held. */
  lemma {:induction false} BatchBooked(fc: FixtureConfig, f: FixtureState, batch: seq<Request>)
    requires |f.active| <= f.counts.highWater
    ensures Booked(fc, f, batch, ReactAll(fc, f, batch).next)
  {
    if batch != [] {
      BatchBooked(fc, f, Front(batch));
      BatchHeld(fc, f, Front(batch));
      BatchHeld(fc, f, batch);
      BookedMore(fc, f, batch, ReactAll(fc, f, Front(batch)).next, ReactAll(fc, f, batch).next);
    }
  }
}
