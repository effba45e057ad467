/** The driver as a state machine: what one offer, one datagram, one due timer or the final
    expiry does to the whole state. Time is in integer milliseconds. */
module DriverModel {
  import opened SipMessages

  const T1_MS := 500
  const T2_MS := 4_000
  const TIMER_B_MS := 64 * T1_MS

  datatype Provisional = NoProvisional | Trying100

  /** `sendFails` holds the ordinals of the `sendto` calls that raise `OSError`. */
  datatype Config = Config(
    seed: int, runId: string, maxActive: nat, provisional: Provisional, target: string,
    sendFails: set<nat>)

  datatype Phase = Calling | ByeSent

  datatype Dialog = Dialog(
    phase: Phase, counted: bool, inviteAt: int, retransmitMs: int, provisionalSeen: bool, byeAt: int)

  datatype Outcome =
    | Completed | Rejected | TransactionTimeout | InvalidMessage | TransportError
    | AdmissionRefused | InternalError | CleanupTimeout

  datatype TimerKind = RetransmitInvite | RetransmitBye | Timeout

  datatype Timer = Timer(deadline: int, kind: TimerKind, index: int)

  datatype Counts = Counts(
    offered: nat, established: nat, completed: nat, highWater: int,
    requestRetransmissions: nat, responseRetransmissions: nat)

  datatype Errors = Errors(
    rejected: nat, transactionTimeout: nat, invalidMessage: nat, transportError: nat,
    admissionRefused: nat, internalError: nat, cleanupTimeout: nat)

  /** The live dialogs, their Call-ID index and the finished ones. `ended`, the outcome of each
      finished dialog, is history the process itself does not keep. */
  datatype Table = Table(
    dialogs: map<int, Dialog>, byCallId: map<CallId, int>, done: map<CallId, int>, active: int,
    ended: map<int, Outcome>)

  /** Everything the summary reports. */
  datatype Stats = Stats(
    counts: Counts, errors: Errors, provisional: map<int, nat>, final: map<int, nat>,
    setupMs: seq<int>, teardownMs: seq<int>, warmupOffered: nat, warmupCompleted: nat)

  /** How often `sendto` was called, and (history) every datagram it accepted. */
  datatype Socket = Socket(attempts: nat, wire: seq<Request>)

  /** `clock` is the last reading taken (history). */
  datatype State = State(
    table: Table, timers: seq<Timer>, counting: bool, stats: Stats, sock: Socket, clock: int)

  /** Nothing offered, nothing received, nothing counted. */
  predicate IsInitial(d: State) {
    && d.table.dialogs == map[] && d.table.byCallId == map[] && d.table.done == map[]
    && d.table.active == 0 && d.table.ended == map[]
    && d.timers == [] && !d.counting && d.sock.attempts == 0 && d.sock.wire == []
    && d.stats.counts.offered == d.stats.counts.established == d.stats.counts.completed == 0
    && d.stats.counts.highWater == 0 && d.stats.errors == Errors(0, 0, 0, 0, 0, 0, 0)
    && d.stats.provisional == map[] && d.stats.final == map[]
    && |d.stats.setupMs| == |d.stats.teardownMs| == 0
    && d.stats.warmupOffered == d.stats.warmupCompleted == 0
  }

  function ErrorTotal(e: Errors): nat {
    e.rejected + e.transactionTimeout + e.invalidMessage + e.transportError + e.admissionRefused
    + e.internalError + e.cleanupTimeout
  }

  function CallOf(cfg: Config, index: int): CallId {
    DialogCall(cfg.runId, index)
  }

  function InviteMsg(cfg: Config, index: int): Request { InviteFor(cfg.seed, cfg.runId, index) }
  function AckMsg(cfg: Config, index: int): Request { AckFor(cfg.seed, cfg.runId, index) }
  function ByeMsg(cfg: Config, index: int): Request { ByeFor(cfg.seed, cfg.runId, index) }

  /** Insertion into the timer heap, kept in pop order: by deadline, and by arming order among
      equal deadlines. */
  function Armed(timers: seq<Timer>, t: Timer): seq<Timer> {
    if timers == [] || t.deadline < timers[0].deadline then [t] + timers
    else [timers[0]] + Armed(timers[1..], t)
  }

  function Arm(d: State, deadline: int, kind: TimerKind, index: int): State {
    d.(timers := Armed(d.timers, Timer(deadline, kind, index)))
  }

  function Tick(m: map<int, nat>, code: int): map<int, nat> {
    m[code := (if code in m then m[code] else 0) + 1]
  }

  function WithError(e: Errors, o: Outcome): Errors {
    match o
    case Completed => e
    case Rejected => e.(rejected := e.rejected + 1)
    case TransactionTimeout => e.(transactionTimeout := e.transactionTimeout + 1)
    case InvalidMessage => e.(invalidMessage := e.invalidMessage + 1)
    case TransportError => e.(transportError := e.transportError + 1)
    case AdmissionRefused => e.(admissionRefused := e.admissionRefused + 1)
    case InternalError => e.(internalError := e.internalError + 1)
    case CleanupTimeout => e.(cleanupTimeout := e.cleanupTimeout + 1)
  }

  function Max(a: int, b: int): int { if a < b then b else a }
  function Min(a: int, b: int): int { if a < b then a else b }

  /** The table without a live dialog. */
  function Remove(cfg: Config, t: Table, index: int, outcome: Outcome): Table {
    var call := CallOf(cfg, index);
    Table(t.dialogs - {index}, t.byCallId - {call}, t.done[call := index], t.active - 1,
          t.ended[index := outcome])
  }

  function Replace(t: Table, index: int, g: Dialog): Table {
    t.(dialogs := t.dialogs[index := g])
  }

  function Conclude(s: Stats, counted: bool, outcome: Outcome): Stats {
    if counted then
      if outcome == Completed then s.(counts := s.counts.(completed := s.counts.completed + 1))
      else s.(errors := WithError(s.errors, outcome))
    else if outcome == Completed then s.(warmupCompleted := s.warmupCompleted + 1)
    else s
  }

  /** Ends a live dialog; a no-op for an index that is not live. */
  function Finish(cfg: Config, d: State, index: int, outcome: Outcome): State {
    if index !in d.table.dialogs then d
    else d.(table := Remove(cfg, d.table, index, outcome),
            stats := Conclude(d.stats, d.table.dialogs[index].counted, outcome))
  }

  predicate SendSucceeds(cfg: Config, d: State) {
    d.sock.attempts !in cfg.sendFails
  }

  /** One `sendto`, whose failure the caller ignores. */
  function Transmit(cfg: Config, d: State, r: Request): State {
    d.(sock := Socket(d.sock.attempts + 1, if SendSucceeds(cfg, d) then d.sock.wire + [r] else d.sock.wire))
  }

  /** One `sendto` on behalf of a dialog, whose failure ends that dialog. */
  function Send(cfg: Config, d: State, r: Request, index: int): State {
    if SendSucceeds(cfg, d) then Transmit(cfg, d, r)
    else Finish(cfg, Transmit(cfg, d, r), index, TransportError)
  }

  function CountOffer(s: Stats, counting: bool): Stats {
    if counting then s.(counts := s.counts.(offered := s.counts.offered + 1))
    else s.(warmupOffered := s.warmupOffered + 1)
  }

  function RaiseHighWater(s: Stats, counting: bool, active: int): Stats {
    if counting then s.(counts := s.counts.(highWater := Max(s.counts.highWater, active))) else s
  }

  /** The state with the dialog entered in the table and counted, before its INVITE is sent. */
  function Admit(cfg: Config, d: State, index: int, now: int): State {
    var g := Dialog(Calling, d.counting, now, T1_MS, false, now);
    var t := Table(d.table.dialogs[index := g], d.table.byCallId[CallOf(cfg, index) := index],
                   d.table.done, d.table.active + 1, d.table.ended);
    d.(table := t, stats := RaiseHighWater(CountOffer(d.stats, d.counting), d.counting, t.active))
  }

  function Offer(cfg: Config, d: State, index: int, now: int): State {
    if d.table.active >= cfg.maxActive then
      var s := CountOffer(d.stats, d.counting);
      d.(stats := if d.counting then s.(errors := WithError(s.errors, InternalError)) else s)
    else
      var d1 := Admit(cfg, d, index, now);
      var d2 := Send(cfg, d1, InviteMsg(cfg, index), index);
      if SendSucceeds(cfg, d1) then
        Arm(Arm(d2, now + T1_MS, RetransmitInvite, index), now + TIMER_B_MS, Timeout, index)
      else d2
  }

  function CountFinal(s: Stats, counted: bool, code: int): Stats {
    if counted then s.(final := Tick(s.final, code)) else s
  }

  function CountEstablished(s: Stats, counted: bool, took: int): Stats {
    if counted then s.(counts := s.counts.(established := s.counts.established + 1),
                       setupMs := s.setupMs + [took])
    else s
  }

  function CountTeardown(s: Stats, counted: bool, took: int): Stats {
    if counted then s.(teardownMs := s.teardownMs + [took]) else s
  }

  function CountProvisional(s: Stats, counted: bool): Stats {
    if counted then s.(provisional := Tick(s.provisional, 100)) else s
  }

  function CountRetransmittedResponse(s: Stats, counted: bool): Stats {
    if counted then
      s.(counts := s.counts.(responseRetransmissions := s.counts.responseRetransmissions + 1))
    else s
  }

  function CountRetransmittedRequest(s: Stats, counted: bool): Stats {
    if counted then
      s.(counts := s.counts.(requestRetransmissions := s.counts.requestRetransmissions + 1))
    else s
  }

  /** The clock readings one datagram may take, in reading order. */
  datatype Readings = Readings(first: int, second: int, third: int)

  /** The dialog moved to its BYE phase and counted, before ACK and BYE are sent. */
  function MarkEstablished(d: State, index: int, at: Readings): State
    requires index in d.table.dialogs
  {
    var g := d.table.dialogs[index];
    d.(table := Replace(d.table, index, g.(phase := ByeSent, retransmitMs := T1_MS, byeAt := at.second)),
       stats := CountEstablished(CountFinal(d.stats, g.counted, 200), g.counted, at.first - g.inviteAt))
  }

  /** The BYE of an established dialog, and the timers of its transaction. */
  function LaunchBye(cfg: Config, d: State, index: int, now: int): State {
    var d1 := Send(cfg, d, ByeMsg(cfg, index), index);
    if !SendSucceeds(cfg, d) then d1
    else Arm(Arm(d1, now + T1_MS, RetransmitBye, index), now + TIMER_B_MS, Timeout, index)
  }

  /** A validated 200 to the INVITE: the dialog is established, acknowledged and torn down. */
  function Establish(cfg: Config, d: State, index: int, at: Readings): State
    requires index in d.table.dialogs
  {
    var d1 := MarkEstablished(d, index, at);
    var d2 := Send(cfg, d1, AckMsg(cfg, index), index);
    if !SendSucceeds(cfg, d1) then d2 else LaunchBye(cfg, d2, index, at.third)
  }

  /** What the driver requires of every response to its INVITE. */
  predicate MatchesInvite(cfg: Config, index: int, r: Response) {
    && r.branch == InviteBranchOf(cfg.seed, cfg.runId, index)
    && r.fromTag == FromTagOf(cfg.seed, cfg.runId, index)
    && r.cseq == INVITE_CSEQ
  }

  predicate MatchesBye(cfg: Config, index: int, r: Response) {
    && r.branch == ByeBranchOf(cfg.seed, cfg.runId, index)
    && r.fromTag == FromTagOf(cfg.seed, cfg.runId, index)
    && r.toTag == ToTagOf(cfg.seed, cfg.runId, index)
    && r.cseq == BYE_CSEQ
  }

  predicate MatchesTarget(cfg: Config, index: int, r: Response) {
    && r.toTag == ToTagOf(cfg.seed, cfg.runId, index)
    && Contains(r.contact, "sip:load@" + cfg.target)
  }

  /** A final other than 200 to the INVITE: counted, ACKed with the INVITE's branch, and the end. */
  function TakeRefusal(cfg: Config, d: State, index: int, r: Response): State
    requires index in d.table.dialogs
  {
    var d1 := d.(stats := CountFinal(d.stats, d.table.dialogs[index].counted, r.code));
    var d2 := Transmit(cfg, d1, FailureAckFor(cfg.seed, cfg.runId, index, r.toTag));
    Finish(cfg, d2, index, if r.code == 503 then AdmissionRefused else Rejected)
  }

  /** A 100 to the INVITE, the first one apart from its retransmissions. */
  function TakeTrying(d: State, index: int): State
    requires index in d.table.dialogs
  {
    var g := d.table.dialogs[index];
    if g.provisionalSeen then d.(stats := CountRetransmittedResponse(d.stats, g.counted))
    else d.(table := Replace(d.table, index, g.(provisionalSeen := true)),
            stats := CountProvisional(d.stats, g.counted))
  }

  function HandleCalling(cfg: Config, d: State, index: int, r: Response, at: Readings): State
    requires index in d.table.dialogs
  {
    var g := d.table.dialogs[index];
    if !MatchesInvite(cfg, index, r) then Finish(cfg, d, index, InvalidMessage)
    else if r.code < 200 then
      if r.code != 100 || cfg.provisional == NoProvisional then Finish(cfg, d, index, InvalidMessage)
      else TakeTrying(d, index)
    else if r.code == 200 then
      if !MatchesTarget(cfg, index, r) then Finish(cfg, d, index, InvalidMessage)
      else if cfg.provisional == Trying100 && !g.provisionalSeen then Finish(cfg, d, index, InvalidMessage)
      else Establish(cfg, d, index, at)
    else TakeRefusal(cfg, d, index, r)
  }

  /** The final response to the BYE. */
  function TakeByeFinal(cfg: Config, d: State, index: int, code: int, now: int): State
    requires index in d.table.dialogs
  {
    var g := d.table.dialogs[index];
    var s := CountFinal(d.stats, g.counted, code);
    if code == 200 then
      Finish(cfg, d.(stats := CountTeardown(s, g.counted, now - g.byeAt)), index, Completed)
    else Finish(cfg, d.(stats := s), index, Rejected)
  }

  function HandleBye(cfg: Config, d: State, index: int, r: Response, at: Readings): State
    requires index in d.table.dialogs
  {
    var g := d.table.dialogs[index];
    if r.cseq == INVITE_CSEQ then
      var d1 := d.(stats := CountRetransmittedResponse(d.stats, g.counted));
      if r.code == 200 then Send(cfg, d1, AckMsg(cfg, index), index) else d1
    else if !MatchesBye(cfg, index, r) || r.code < 200 then Finish(cfg, d, index, InvalidMessage)
    else TakeByeFinal(cfg, d, index, r.code, at.first)
  }

  /** The driver ends live dialog `i` as `invalid_message` on this response. */
  predicate Objectionable(cfg: Config, g: Dialog, i: int, r: Response) {
    match g.phase
    case Calling =>
      || !MatchesInvite(cfg, i, r)
      || (r.code < 200 && (r.code != 100 || cfg.provisional == NoProvisional))
      || (r.code == 200 && (!MatchesTarget(cfg, i, r) || (cfg.provisional == Trying100 && !g.provisionalSeen)))
    case ByeSent =>
      r.cseq != INVITE_CSEQ && (!MatchesBye(cfg, i, r) || r.code < 200)
  }

  /** The Call-ID index only names live dialogs. */
  predicate Linked(d: State) {
    forall c :: c in d.table.byCallId ==> d.table.byCallId[c] in d.table.dialogs
  }

  /** A response to a dialog that is not live: a retransmitted 2xx of a finished one is ACKed again. */
  function HandleStray(cfg: Config, d: State, r: Response): State {
    if r.callId in d.table.done then
      var d1 := d.(stats := CountRetransmittedResponse(d.stats, d.counting));
      if r.code == 200 && EndsWithInvite(r.cseq) then
        Transmit(cfg, d1, AckMsg(cfg, d.table.done[r.callId]))
      else d1
    else d
  }

  function Handle(cfg: Config, d: State, r: Response, at: Readings): State
    requires Linked(d)
  {
    if r.callId in d.table.byCallId then
      var index := d.table.byCallId[r.callId];
      if d.table.dialogs[index].phase == Calling then HandleCalling(cfg, d, index, r, at)
      else HandleBye(cfg, d, index, r, at)
    else HandleStray(cfg, d, r)
  }

  /** A retransmission and the arming of the next one `interval` later. */
  function Resend(cfg: Config, d: State, t: Timer, r: Request, interval: int, now: int): State
    requires t.index in d.table.dialogs
  {
    var g := d.table.dialogs[t.index];
    var d1 := Send(cfg, d, r, t.index);
    if !SendSucceeds(cfg, d) then d1
    else
      Arm(d1.(table := Replace(d1.table, t.index, g.(retransmitMs := interval)),
              stats := CountRetransmittedRequest(d1.stats, g.counted)),
          now + interval, t.kind, t.index)
  }

  /** One pop of the timer heap at clock reading `now`. */
  function Fire(cfg: Config, d: State, now: int): State
    requires d.timers != []
  {
    var t := d.timers[0];
    var d1 := d.(timers := d.timers[1..]);
    if t.index !in d1.table.dialogs then d1
    else
      var g := d1.table.dialogs[t.index];
      if t.kind == Timeout then Finish(cfg, d1, t.index, TransactionTimeout)
      else if t.kind == RetransmitInvite && g.phase == Calling then
        Resend(cfg, d1, t, InviteMsg(cfg, t.index), g.retransmitMs * 2, now)
      else if t.kind == RetransmitBye && g.phase == ByeSent then
        Resend(cfg, d1, t, ByeMsg(cfg, t.index), Min(g.retransmitMs * 2, T2_MS), now)
      else d1
  }

  /** Everything the process can do between two observations of its state. */
  datatype Event =
    | OfferAt(index: int, now: int)
    | Arrival(response: Response, at: Readings)
    | FireAt(now: int)
    | ExpireOne(index: int)
    | StartCounting
    | ReadClock(now: int)

  /** What the process guarantees of its own events: a monotone clock, an offered index that is
      not live, and timers that are due. */
  predicate Enabled(d: State, e: Event) {
    match e
    case OfferAt(index, now) => d.clock <= now && index !in d.table.dialogs
    case Arrival(_, at) => d.clock <= at.first <= at.second <= at.third
    case FireAt(now) => d.clock <= now && d.timers != [] && d.timers[0].deadline <= now
    case ExpireOne(index) => index in d.table.dialogs
    case StartCounting => true
    case ReadClock(now) => d.clock <= now
  }

  function Next(cfg: Config, d: State, e: Event): State
    requires Linked(d) && Enabled(d, e)
  {
    match e
    case OfferAt(index, now) => Offer(cfg, d, index, now).(clock := now)
    case Arrival(r, at) => Handle(cfg, d, r, at).(clock := at.third)
    case FireAt(now) => Fire(cfg, d, now).(clock := now)
    case ExpireOne(index) => Finish(cfg, d, index, CleanupTimeout)
    case StartCounting => d.(counting := true)
    case ReadClock(now) => d.(clock := now)
  }

  /** Never offered before: neither live nor finished. */
  predicate Fresh(cfg: Config, d: State, index: int) {
    index !in d.table.dialogs && CallOf(cfg, index) !in d.table.done
  }

  predicate OffersFresh(cfg: Config, d: State, e: Event) {
    e.OfferAt? ==> Fresh(cfg, d, e.index)
  }

  /** One event of a run; a `distinct` run never offers an index twice. */
  predicate Moves(cfg: Config, distinct: bool, a: State, e: Event, b: State) {
    Linked(a) && Enabled(a, e) && (distinct ==> OffersFresh(cfg, a, e)) && b == Next(cfg, a, e)
  }

  predicate MovesAt(cfg: Config, distinct: bool, ss: seq<State>, es: seq<Event>, k: nat)
    requires k < |es| && |ss| == |es| + 1
  {
    Moves(cfg, distinct, ss[k], es[k], ss[k + 1])
  }

  /** The states `ss` a run goes through. */
  ghost predicate Traced(cfg: Config, distinct: bool, ss: seq<State>, es: seq<Event>) {
    |ss| == |es| + 1 && forall k: nat :: k < |es| ==> MovesAt(cfg, distinct, ss, es, k)
  }

  /** `b` is reached from `a` by the events `es`. */
  ghost predicate Leads(cfg: Config, distinct: bool, a: State, es: seq<Event>, b: State) {
    exists ss: seq<State> :: Traced(cfg, distinct, ss, es) && ss[0] == a && ss[|es|] == b
  }

  lemma LeadsNowhere(cfg: Config, distinct: bool, a: State)
    ensures Leads(cfg, distinct, a, [], a)
  {
    assert Traced(cfg, distinct, [a], []);
  }

  /** The last event of a run. */
  lemma LeadsLast(cfg: Config, distinct: bool, a: State, es: seq<Event>, b: State) returns (m: State)
    requires Leads(cfg, distinct, a, es, b) && es != []
    ensures Leads(cfg, distinct, a, es[..|es| - 1], m) && Moves(cfg, distinct, m, es[|es| - 1], b)
  {
    var ss: seq<State> :| Traced(cfg, distinct, ss, es) && ss[0] == a && ss[|es|] == b;
    var last := |es| - 1;
    m := ss[last];
    assert MovesAt(cfg, distinct, ss, es, last);
    forall k: nat | k < last ensures MovesAt(cfg, distinct, ss[..|es|], es[..last], k) {
      assert MovesAt(cfg, distinct, ss, es, k);
    }
    assert Traced(cfg, distinct, ss[..|es|], es[..last]);
  }

  /** One more event at the end of a run. */
  lemma LeadsMore(cfg: Config, distinct: bool, a: State, es: seq<Event>, m: State, e: Event)
    requires Leads(cfg, distinct, a, es, m) && Linked(m) && Enabled(m, e) && (distinct ==> OffersFresh(cfg, m, e))
    ensures Leads(cfg, distinct, a, es + [e], Next(cfg, m, e))
  {
    var ss: seq<State> :| Traced(cfg, distinct, ss, es) && ss[0] == a && ss[|es|] == m;
    var ts, fs := ss + [Next(cfg, m, e)], es + [e];
    forall k: nat | k < |fs| ensures MovesAt(cfg, distinct, ts, fs, k) {
      if k < |es| { assert MovesAt(cfg, distinct, ss, es, k); }
    }
    assert Traced(cfg, distinct, ts, fs);
  }

  /** A run has one end. */
  lemma {:induction false} LeadsUnique(cfg: Config, start: State, es: seq<Event>, a: State, b: State)
    requires Leads(cfg, false, start, es, a) && Leads(cfg, false, start, es, b)
    ensures a == b
    decreases |es|
  {
    if es != [] {
      var last := |es| - 1;
      var m := LeadsLast(cfg, false, start, es, a);
      var n := LeadsLast(cfg, false, start, es, b);
      LeadsUnique(cfg, start, es[..last], m, n);
    }
  }

  /** The beginning of a run. */
  lemma TracedPrefix(cfg: Config, distinct: bool, ss: seq<State>, es: seq<Event>, n: nat)
    requires Traced(cfg, distinct, ss, es) && n <= |es|
    ensures Leads(cfg, distinct, ss[0], es[..n], ss[n])
  {
    var ts, fs := ss[..n + 1], es[..n];
    forall j: nat | j < |fs| ensures MovesAt(cfg, distinct, ts, fs, j) { assert MovesAt(cfg, distinct, ss, es, j); }
    assert Traced(cfg, distinct, ts, fs);
  }

  /** The state after the first `k` events of a run. */
  lemma LeadsPrefix(cfg: Config, distinct: bool, a: State, es: seq<Event>, b: State, k: nat) returns (m: State)
    requires Leads(cfg, distinct, a, es, b) && k <= |es|
    ensures Leads(cfg, distinct, a, es[..k], m)
  {
    var ss: seq<State> :| Traced(cfg, distinct, ss, es) && ss[0] == a && ss[|es|] == b;
    m := ss[k];
    TracedPrefix(cfg, distinct, ss, es, k);
  }

  /** A run that offers each index once is a run. */
  lemma LeadsAnyway(cfg: Config, a: State, es: seq<Event>, b: State)
    requires Leads(cfg, true, a, es, b)
    ensures Leads(cfg, false, a, es, b)
  {
    var ss: seq<State> :| Traced(cfg, true, ss, es) && ss[0] == a && ss[|es|] == b;
    forall k: nat | k < |es| ensures MovesAt(cfg, false, ss, es, k) { assert MovesAt(cfg, true, ss, es, k); }
    assert Traced(cfg, false, ss, es);
  }
}
