/** The packaged minimal responder: its answer to one request, and the receive loop around it. */
module FixtureModel {
  import opened SipMessages
  import opened DriverModel

  datatype FixtureConfig = FixtureConfig(
    seed: int, runId: string, maxActive: nat, provisional: Provisional, local: string)

  datatype FixtureCounts = FixtureCounts(invites: nat, completed: nat, refused: nat, highWater: nat)

  datatype FixtureState = FixtureState(active: set<CallId>, counts: FixtureCounts)

  /** What the fixture did with one request. */
  datatype Reaction = Reaction(next: FixtureState, replies: seq<Response>)

  /** The deterministic To tag: the index is read back out of a Call-ID of this run, else 0. */
  function FixtureToTag(fc: FixtureConfig, c: CallId): Param {
    if c.DialogCall? && c.runId == fc.runId then ToTagOf(fc.seed, fc.runId, c.index)
    else ToTagOf(fc.seed, fc.runId, 0)
  }

  /** A 200 that copies the request's headers, adding `extra` as To tag when none is there. */
  function Accept(fc: FixtureConfig, r: Request, extra: Param): Response {
    Response(200, r.callId, r.branch, r.fromTag, if r.toTag == Absent then extra else r.toTag,
             r.cseq, "<sip:load@" + fc.local + ">")
  }

  function Trying(r: Request): Response {
    Response(100, r.callId, r.branch, r.fromTag, r.toTag, r.cseq, "")
  }

  function Refuse(fc: FixtureConfig, r: Request): Response {
    Response(503, r.callId, r.branch, r.fromTag,
             if r.toTag == Absent then FixtureToTag(fc, r.callId) else r.toTag, r.cseq, "")
  }

  function React(fc: FixtureConfig, f: FixtureState, r: Request): Reaction {
    match r.verb
    case Ack => Reaction(f, [])
    case Invite =>
      var counts := f.counts.(invites := f.counts.invites + 1);
      var ok := Accept(fc, r, FixtureToTag(fc, r.callId));
      if r.callId in f.active then Reaction(f.(counts := counts), [ok])
      else if |f.active| >= fc.maxActive then
        Reaction(f.(counts := counts.(refused := counts.refused + 1)), [Refuse(fc, r)])
      else
        var active := f.active + {r.callId};
        var high := if counts.highWater < |active| then |active| else counts.highWater;
        Reaction(FixtureState(active, counts.(highWater := high)),
                 if fc.provisional == Trying100 then [Trying(r), ok] else [ok])
    case Bye =>
      var ok := Accept(fc, r, Absent);
      if r.callId in f.active then
        Reaction(FixtureState(f.active - {r.callId}, f.counts.(completed := f.counts.completed + 1)), [ok])
      else Reaction(f, [ok])
  }

  /** A whole batch, in arrival order. */
  function ReactAll(fc: FixtureConfig, f: FixtureState, batch: seq<Request>): Reaction {
    if batch == [] then Reaction(f, [])
    else
      var before := ReactAll(fc, f, batch[..|batch| - 1]);
      var last := React(fc, before.next, batch[|batch| - 1]);
      Reaction(last.next, before.replies + last.replies)
  }

  class Fixture {
    const fc: FixtureConfig
    var active: set<CallId>
    var invites: nat
    var completed: nat
    var refused: nat
    var highWater: nat

    constructor (fc: FixtureConfig)
      ensures this.fc == fc && View() == FixtureState({}, FixtureCounts(0, 0, 0, 0))
    {
      this.fc := fc;
      active := {};
      invites, completed, refused, highWater := 0, 0, 0, 0;
    }

    function View(): FixtureState
      reads this
    {
      FixtureState(active, FixtureCounts(invites, completed, refused, highWater))
    }

    /** One datagram of the receive loop. */
    method Receive(r: Request) returns (replies: seq<Response>)
      modifies this
      ensures Reaction(View(), replies) == React(fc, old(View()), r)
    {
      replies := [];
      if r.verb == Invite {
        invites := invites + 1;
        var ok := Accept(fc, r, FixtureToTag(fc, r.callId));
        if r.callId in active {
          return [ok];
        }
        if |active| >= fc.maxActive {
          refused := refused + 1;
          return [Refuse(fc, r)];
        }
        active := active + {r.callId};
        if highWater < |active| { highWater := |active|; }
        if fc.provisional == Trying100 { replies := [Trying(r)]; }
        replies := replies + [ok];
      } else if r.verb == Bye {
        if r.callId in active {
          active := active - {r.callId};
          completed := completed + 1;
        }
        replies := [Accept(fc, r, Absent)];
      }
    }

    /** The datagrams of one wake-up. */
    method ReceiveBatch(batch: seq<Request>) returns (replies: seq<Response>)
      modifies this
      ensures Reaction(View(), replies) == ReactAll(fc, old(View()), batch)
    {
      replies := [];
      for k := 0 to |batch|
        invariant Reaction(View(), replies) == ReactAll(fc, old(View()), batch[..k])
      {
        var more := Receive(batch[k]);
        replies := replies + more;
        assert batch[..k + 1][..k] == batch[..k];
      }
      assert batch[..|batch|] == batch;
    }
  }
}
