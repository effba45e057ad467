/** What the driver's counters always add up to, and when its summary satisfies the accounting
    clauses of the result contract. */
module DriverAccounting {
  import opened FiniteSets
  import opened SipMessages
  import opened DriverModel

  /** The classes of live counted dialogs the equations count. */
  datatype Class = AnyPhase | InCalling | InBye | Unseen | Tried

  predicate Is(k: Class, g: Dialog) {
    g.counted && match k
                 case AnyPhase => true
                 case InCalling => g.phase == Calling
                 case InBye => g.phase == ByeSent
                 case Unseen => !g.provisionalSeen
                 case Tried => g.phase == Calling && g.provisionalSeen
  }

  function One(b: bool): nat { if b then 1 else 0 }

  /** How many live dialogs are of class `k`. */
  function Tally(m: map<int, Dialog>, k: Class): nat {
    |set i | i in m && Is(k, m[i])|
  }

  lemma TallyBound(m: map<int, Dialog>)
    ensures forall k :: Tally(m, k) <= |m|
  {
    forall k ensures Tally(m, k) <= |m| {
      var those := set i | i in m && Is(k, m[i]);
      SubsetSize(those, m.Keys);
    }
  }

  lemma TallyRemove(m: map<int, Dialog>, index: int)
    requires index in m
    ensures forall k :: Tally(m - {index}, k) == Tally(m, k) - One(Is(k, m[index]))
  {
    forall k ensures Tally(m - {index}, k) == Tally(m, k) - One(Is(k, m[index])) {
      var before := set i | i in m && Is(k, m[i]);
      var after := set i | i in m - {index} && Is(k, (m - {index})[i]);
      assert after == before - {index};
    }
  }

  lemma TallyInsert(m: map<int, Dialog>, index: int, g: Dialog)
    requires index !in m
    ensures forall k :: Tally(m[index := g], k) == Tally(m, k) + One(Is(k, g))
  {
    assert m[index := g] - {index} == m;
    TallyRemove(m[index := g], index);
  }

  lemma TallyReplace(m: map<int, Dialog>, index: int, g: Dialog)
    requires index in m
    ensures forall k :: Tally(m[index := g], k) == Tally(m, k) - One(Is(k, m[index])) + One(Is(k, g))
  {
    assert m[index := g] - {index} == m - {index};
    TallyRemove(m, index);
    TallyRemove(m[index := g], index);
  }

  /** Responses counted under the codes `lo <= code < hi`. */
  function CodeSum(m: map<int, nat>, lo: int, hi: int): nat
    decreases hi - lo
  {
    if hi <= lo then 0 else (if lo in m then m[lo] else 0) + CodeSum(m, lo + 1, hi)
  }

  lemma {:induction false} CodeSumTick(m: map<int, nat>, code: int, lo: int, hi: int)
    ensures CodeSum(Tick(m, code), lo, hi) == CodeSum(m, lo, hi) + One(lo <= code < hi)
    decreases hi - lo
  {
    if lo < hi { CodeSumTick(m, code, lo + 1, hi); }
  }

  lemma {:induction false} CodeSumSplit(m: map<int, nat>, lo: int, mid: int, hi: int)
    requires lo <= mid <= hi
    ensures CodeSum(m, lo, hi) == CodeSum(m, lo, mid) + CodeSum(m, mid, hi)
    decreases mid - lo
  {
    if lo < mid { CodeSumSplit(m, lo + 1, mid, hi); }
  }

  lemma {:induction false} CodeSumBound(m: map<int, nat>, code: int, lo: int, hi: int)
    requires lo <= code < hi && code in m
    ensures m[code] <= CodeSum(m, lo, hi)
    decreases hi - lo
  {
    if lo < code { CodeSumBound(m, code, lo + 1, hi); }
  }

  lemma {:induction false} CodeSumZero(m: map<int, nat>, lo: int, hi: int)
    requires forall c :: c in m && lo <= c < hi ==> m[c] == 0
    ensures CodeSum(m, lo, hi) == 0
    decreases hi - lo
  {
    if lo < hi { CodeSumZero(m, lo + 1, hi); }
  }

  function CountOf(m: map<int, nat>, code: int): nat { if code in m then m[code] else 0 }

  /** The dialog table, the Call-ID index and `active` describe the same live dialogs. */
  ghost predicate Coherent(cfg: Config, t: Table) {
    && t.active == |t.dialogs| == |t.byCallId| <= cfg.maxActive
    && (forall i :: i in t.dialogs ==> CallOf(cfg, i) in t.byCallId && t.byCallId[CallOf(cfg, i)] == i)
    && (forall c :: c in t.byCallId ==> t.byCallId[c] in t.dialogs && c == CallOf(cfg, t.byCallId[c]))
    && (forall c :: c in t.done ==> c == CallOf(cfg, t.done[c]))
  }

  /** Every offered dialog is live or in exactly one class. */
  ghost predicate Balanced(s: Stats, m: map<int, Dialog>) {
    && s.counts.offered == s.counts.completed + ErrorTotal(s.errors) + Tally(m, AnyPhase)
    && s.counts.completed + Tally(m, InBye) <= s.counts.established
    && s.counts.established + Tally(m, InCalling) <= s.counts.offered
    && |s.setupMs| == s.counts.established
    && |s.teardownMs| == s.counts.completed
  }

  predicate Below(m: map<int, nat>, hi: int) {
    forall c :: c in m ==> c < hi
  }

  ghost predicate FinalsBalanced(s: Stats) {
    && CountOf(s.final, 200) == s.counts.established + s.counts.completed
    && (forall c :: c in s.final ==> 200 <= c && s.final[c] > 0)
    && (forall hi :: Below(s.final, hi) ==>
          CodeSum(s.final, 201, hi) == s.errors.rejected + s.errors.admissionRefused)
  }

  ghost predicate ProvisionalsBalanced(cfg: Config, s: Stats, m: map<int, Dialog>) {
    && s.provisional.Keys <= {100}
    && (cfg.provisional == NoProvisional ==> 100 !in s.provisional)
    && CountOf(s.provisional, 100) + Tally(m, Unseen) <= s.counts.offered
    && (cfg.provisional == Trying100 ==>
          s.counts.established + Tally(m, Tried) <= CountOf(s.provisional, 100))
    && 0 <= s.counts.highWater <= cfg.maxActive
  }

  ghost predicate Reckoned(cfg: Config, s: Stats, m: map<int, Dialog>) {
    Balanced(s, m) && FinalsBalanced(s) && ProvisionalsBalanced(cfg, s, m)
  }

  ghost predicate Accounted(cfg: Config, d: State) {
    Coherent(cfg, d.table) && Reckoned(cfg, d.stats, d.table.dialogs)
  }

  lemma FinalsTick(m: map<int, nat>, code: int)
    ensures forall hi :: Below(Tick(m, code), hi) ==>
              Below(m, hi) && CodeSum(Tick(m, code), 201, hi) == CodeSum(m, 201, hi) + One(201 <= code)
  {
    forall hi | Below(Tick(m, code), hi)
      ensures Below(m, hi) && CodeSum(Tick(m, code), 201, hi) == CodeSum(m, 201, hi) + One(201 <= code)
    {
      assert code in Tick(m, code);
      forall c | c in m ensures c < hi { assert c in Tick(m, code); }
      CodeSumTick(m, code, 201, hi);
    }
  }

  lemma InitialAccounted(cfg: Config, d: State)
    requires IsInitial(d)
    ensures Accounted(cfg, d)
  {
    TallyBound(d.table.dialogs);
    forall hi ensures CodeSum(d.stats.final, 201, hi) == 0 { CodeSumZero(d.stats.final, 201, hi); }
  }

  lemma RemoveCoherent(cfg: Config, t: Table, i: int, o: Outcome)
    requires Coherent(cfg, t) && i in t.dialogs
    ensures Coherent(cfg, Remove(cfg, t, i, o))
  {
    var t' := Remove(cfg, t, i, o);
    assert t'.dialogs.Keys == t.dialogs.Keys - {i};
    assert t'.byCallId.Keys == t.byCallId.Keys - {CallOf(cfg, i)};
  }

  lemma ReplaceCoherent(cfg: Config, t: Table, i: int, g: Dialog)
    requires Coherent(cfg, t) && i in t.dialogs
    ensures Coherent(cfg, Replace(t, i, g))
  {
    assert Replace(t, i, g).dialogs.Keys == t.dialogs.Keys;
  }

  lemma InsertSize<K, V>(m: map<K, V>, k: K, v: V)
    requires k !in m
    ensures |m[k := v]| == |m| + 1
  {
    assert m[k := v].Keys == m.Keys + {k};
  }

  lemma InsertCoherent(cfg: Config, t: Table, i: int, g: Dialog)
    requires Coherent(cfg, t) && i !in t.dialogs && t.active < cfg.maxActive
    ensures Coherent(cfg, Table(t.dialogs[i := g], t.byCallId[CallOf(cfg, i) := i], t.done,
                                t.active + 1, t.ended))
  {
    assert CallOf(cfg, i) !in t.byCallId;
    InsertSize(t.dialogs, i, g);
    InsertSize(t.byCallId, CallOf(cfg, i), i);
  }

  /** Classes that no counted final stands behind. */
  predicate Silent(o: Outcome) {
    o != Completed && o != Rejected && o != AdmissionRefused
  }

  lemma FinishSilent(cfg: Config, d: State, i: int, o: Outcome)
    requires Accounted(cfg, d) && Silent(o)
    ensures Accounted(cfg, Finish(cfg, d, i, o))
  {
    if i in d.table.dialogs {
      RemoveCoherent(cfg, d.table, i, o);
      SilentReckoned(cfg, d.stats, d.table.dialogs, i, o);
    }
  }

  lemma SilentReckoned(cfg: Config, s: Stats, m: map<int, Dialog>, i: int, o: Outcome)
    requires Reckoned(cfg, s, m) && i in m && Silent(o)
    ensures Reckoned(cfg, Conclude(s, m[i].counted, o), m - {i})
  {
    TallyRemove(m, i);
  }

  lemma SendAccounted(cfg: Config, d: State, r: Request, i: int)
    requires Accounted(cfg, d)
    ensures Accounted(cfg, Send(cfg, d, r, i))
  {
    FinishSilent(cfg, Transmit(cfg, d, r), i, TransportError);
  }

  lemma AdmitAccounted(cfg: Config, d: State, i: int, now: int)
    requires Accounted(cfg, d) && i !in d.table.dialogs && d.table.active < cfg.maxActive
    ensures Accounted(cfg, Admit(cfg, d, i, now))
  {
    var g := Dialog(Calling, d.counting, now, T1_MS, false, now);
    InsertCoherent(cfg, d.table, i, g);
    TallyInsert(d.table.dialogs, i, g);
  }

  lemma OfferAccounted(cfg: Config, d: State, i: int, now: int)
    requires Accounted(cfg, d) && i !in d.table.dialogs
    ensures Accounted(cfg, Offer(cfg, d, i, now))
  {
    if d.table.active < cfg.maxActive {
      AdmitAccounted(cfg, d, i, now);
      SendAccounted(cfg, Admit(cfg, d, i, now), InviteMsg(cfg, i), i);
    }
  }

  lemma MarkAccounted(cfg: Config, d: State, i: int, at: Readings)
    requires Accounted(cfg, d) && i in d.table.dialogs && d.table.dialogs[i].phase == Calling
    requires cfg.provisional == Trying100 ==> d.table.dialogs[i].provisionalSeen
    ensures Accounted(cfg, MarkEstablished(d, i, at))
  {
    var g := MarkEstablished(d, i, at).table.dialogs[i];
    ReplaceCoherent(cfg, d.table, i, g);
    TallyReplace(d.table.dialogs, i, g);
    FinalsTick(d.stats.final, 200);
  }

  lemma EstablishAccounted(cfg: Config, d: State, i: int, at: Readings)
    requires Accounted(cfg, d) && i in d.table.dialogs && d.table.dialogs[i].phase == Calling
    requires cfg.provisional == Trying100 ==> d.table.dialogs[i].provisionalSeen
    ensures Accounted(cfg, Establish(cfg, d, i, at))
  {
    var d1 := MarkEstablished(d, i, at);
    MarkAccounted(cfg, d, i, at);
    SendAccounted(cfg, d1, AckMsg(cfg, i), i);
    SendAccounted(cfg, Send(cfg, d1, AckMsg(cfg, i), i), ByeMsg(cfg, i), i);
  }

  /** A non-200 final is counted and ends its dialog as rejected or refused. */
  lemma RefusalReckoned(cfg: Config, s: Stats, m: map<int, Dialog>, i: int, code: int, o: Outcome)
    requires Reckoned(cfg, s, m) && i in m
    requires 200 < code && (o == Rejected || o == AdmissionRefused)
    ensures Reckoned(cfg, Conclude(CountFinal(s, m[i].counted, code), m[i].counted, o), m - {i})
  {
    TallyRemove(m, i);
    FinalsTick(s.final, code);
  }

  lemma CompletionReckoned(cfg: Config, s: Stats, m: map<int, Dialog>, i: int, took: int)
    requires Reckoned(cfg, s, m) && i in m && m[i].phase == ByeSent
    ensures Reckoned(cfg, Conclude(CountTeardown(CountFinal(s, m[i].counted, 200), m[i].counted, took),
                                   m[i].counted, Completed), m - {i})
  {
    TallyRemove(m, i);
    FinalsTick(s.final, 200);
  }

  lemma ProvisionalReckoned(cfg: Config, s: Stats, m: map<int, Dialog>, i: int)
    requires Reckoned(cfg, s, m) && i in m && cfg.provisional == Trying100 && !m[i].provisionalSeen
    ensures Reckoned(cfg, CountProvisional(s, m[i].counted), m[i := m[i].(provisionalSeen := true)])
  {
    TallyReplace(m, i, m[i].(provisionalSeen := true));
  }

  lemma RefusalAccounted(cfg: Config, d: State, i: int, r: Response)
    requires Accounted(cfg, d) && i in d.table.dialogs && d.table.dialogs[i].phase == Calling && r.code > 200
    ensures Accounted(cfg, TakeRefusal(cfg, d, i, r))
  {
    var o := if r.code == 503 then AdmissionRefused else Rejected;
    RemoveCoherent(cfg, d.table, i, o);
    RefusalReckoned(cfg, d.stats, d.table.dialogs, i, r.code, o);
  }

  lemma TryingAccounted(cfg: Config, d: State, i: int)
    requires Accounted(cfg, d) && i in d.table.dialogs && d.table.dialogs[i].phase == Calling
    requires cfg.provisional == Trying100
    ensures Accounted(cfg, TakeTrying(d, i))
  {
    var g := d.table.dialogs[i];
    if !g.provisionalSeen {
      ReplaceCoherent(cfg, d.table, i, g.(provisionalSeen := true));
      ProvisionalReckoned(cfg, d.stats, d.table.dialogs, i);
    }
  }

  lemma CallingAccounted(cfg: Config, d: State, i: int, r: Response, at: Readings)
    requires Accounted(cfg, d) && i in d.table.dialogs && d.table.dialogs[i].phase == Calling
    ensures Accounted(cfg, HandleCalling(cfg, d, i, r, at))
  {
    var g := d.table.dialogs[i];
    if Objectionable(cfg, g, i, r) {
      FinishSilent(cfg, d, i, InvalidMessage);
    } else if r.code == 200 {
      EstablishAccounted(cfg, d, i, at);
    } else if r.code > 200 {
      RefusalAccounted(cfg, d, i, r);
    } else {
      TryingAccounted(cfg, d, i);
    }
  }

  lemma ByeAccounted(cfg: Config, d: State, i: int, r: Response, at: Readings)
    requires Accounted(cfg, d) && i in d.table.dialogs && d.table.dialogs[i].phase == ByeSent
    ensures Accounted(cfg, HandleBye(cfg, d, i, r, at))
  {
    var g := d.table.dialogs[i];
    if r.cseq == INVITE_CSEQ {
      SendAccounted(cfg, d.(stats := CountRetransmittedResponse(d.stats, g.counted)), AckMsg(cfg, i), i);
    } else if !MatchesBye(cfg, i, r) || r.code < 200 {
      FinishSilent(cfg, d, i, InvalidMessage);
    } else {
      ByeFinalAccounted(cfg, d, i, r.code, at.first);
    }
  }

  lemma ByeFinalAccounted(cfg: Config, d: State, i: int, code: int, now: int)
    requires Accounted(cfg, d) && i in d.table.dialogs && d.table.dialogs[i].phase == ByeSent && code >= 200
    ensures Accounted(cfg, TakeByeFinal(cfg, d, i, code, now))
  {
    if code == 200 {
      RemoveCoherent(cfg, d.table, i, Completed);
      CompletionReckoned(cfg, d.stats, d.table.dialogs, i, now - d.table.dialogs[i].byeAt);
    } else {
      RemoveCoherent(cfg, d.table, i, Rejected);
      RefusalReckoned(cfg, d.stats, d.table.dialogs, i, code, Rejected);
    }
  }

  lemma RepaceAccounted(cfg: Config, d: State, i: int, interval: int)
    requires Accounted(cfg, d) && i in d.table.dialogs
    ensures var g := d.table.dialogs[i];
            Accounted(cfg, d.(table := Replace(d.table, i, g.(retransmitMs := interval)),
                              stats := CountRetransmittedRequest(d.stats, g.counted)))
  {
    var g := d.table.dialogs[i].(retransmitMs := interval);
    ReplaceCoherent(cfg, d.table, i, g);
    TallyReplace(d.table.dialogs, i, g);
  }

  lemma ResendAccounted(cfg: Config, d: State, t: Timer, r: Request, interval: int, now: int)
    requires Accounted(cfg, d) && t.index in d.table.dialogs
    ensures Accounted(cfg, Resend(cfg, d, t, r, interval, now))
  {
    SendAccounted(cfg, d, r, t.index);
    if SendSucceeds(cfg, d) { RepaceAccounted(cfg, Send(cfg, d, r, t.index), t.index, interval); }
  }

  lemma PopAccounted(cfg: Config, d: State)
    requires Accounted(cfg, d) && d.timers != []
    ensures Accounted(cfg, d.(timers := d.timers[1..]))
  {}

  /** What firing a timer of a live dialog comes to. */
  lemma FireResult(cfg: Config, d: State, now: int)
    requires d.timers != [] && d.timers[0].index in d.table.dialogs
    ensures var t, d1, d' := d.timers[0], d.(timers := d.timers[1..]), Fire(cfg, d, now);
            var g := d.table.dialogs[t.index];
            match t.kind
            case Timeout => d' == Finish(cfg, d1, t.index, TransactionTimeout)
            case RetransmitInvite =>
              d' == d1 || d' == Resend(cfg, d1, t, InviteMsg(cfg, t.index), g.retransmitMs * 2, now)
            case RetransmitBye =>
              d' == d1 || d' == Resend(cfg, d1, t, ByeMsg(cfg, t.index), Min(g.retransmitMs * 2, T2_MS), now)
  {}

  lemma FireLiveAccounted(cfg: Config, d: State, now: int, d': State)
    requires Accounted(cfg, d) && d.timers != [] && d.timers[0].index in d.table.dialogs && d' == Fire(cfg, d, now)
    ensures Accounted(cfg, d')
  {
    var t, d1 := d.timers[0], d.(timers := d.timers[1..]);
    var g := d1.table.dialogs[t.index];
    PopAccounted(cfg, d);
    FireResult(cfg, d, now);
    match t.kind
    case Timeout => FinishSilent(cfg, d1, t.index, TransactionTimeout);
    case RetransmitInvite => ResendAccounted(cfg, d1, t, InviteMsg(cfg, t.index), g.retransmitMs * 2, now);
    case RetransmitBye => ResendAccounted(cfg, d1, t, ByeMsg(cfg, t.index), Min(g.retransmitMs * 2, T2_MS), now);
  }

  lemma FireAccounted(cfg: Config, d: State, now: int)
    requires Accounted(cfg, d) && d.timers != []
    ensures Accounted(cfg, Fire(cfg, d, now))
  {
    PopAccounted(cfg, d);
    if d.timers[0].index in d.table.dialogs { FireLiveAccounted(cfg, d, now, Fire(cfg, d, now)); }
  }

  lemma HandleAccounted(cfg: Config, d: State, r: Response, at: Readings)
    requires Accounted(cfg, d) && Linked(d)
    ensures Accounted(cfg, Handle(cfg, d, r, at))
  {
    if r.callId in d.table.byCallId {
      var i := d.table.byCallId[r.callId];
      if d.table.dialogs[i].phase == Calling { CallingAccounted(cfg, d, i, r, at); }
      else { ByeAccounted(cfg, d, i, r, at); }
    } else {
      StrayAccounted(cfg, d, r);
    }
  }

  lemma TransmitAccounted(cfg: Config, d: State, r: Request)
    requires Accounted(cfg, d)
    ensures Accounted(cfg, Transmit(cfg, d, r))
  {}

  lemma RetransmissionAccounted(cfg: Config, d: State, counted: bool)
    requires Accounted(cfg, d)
    ensures Accounted(cfg, d.(stats := CountRetransmittedResponse(d.stats, counted)))
  {}

  lemma StrayAccounted(cfg: Config, d: State, r: Response)
    requires Accounted(cfg, d)
    ensures Accounted(cfg, HandleStray(cfg, d, r))
  {
    if r.callId in d.table.done {
      var d1 := d.(stats := CountRetransmittedResponse(d.stats, d.counting));
      RetransmissionAccounted(cfg, d, d.counting);
      TransmitAccounted(cfg, d1, AckMsg(cfg, d.table.done[r.callId]));
    }
  }

  lemma NextAccounted(cfg: Config, d: State, e: Event)
    requires Accounted(cfg, d) && Enabled(d, e)
    ensures Linked(d) && Accounted(cfg, Next(cfg, d, e))
  {
    match e
    case OfferAt(index, now) => OfferAccounted(cfg, d, index, now);
    case Arrival(r, at) => HandleAccounted(cfg, d, r, at);
    case FireAt(now) => FireAccounted(cfg, d, now);
    case ExpireOne(index) => FinishSilent(cfg, d, index, CleanupTimeout);
    case StartCounting =>
    case ReadClock(_) =>
  }

  /** Every state of every run, whatever arrives on the socket and whichever sends fail. */
  lemma {:induction false} RunAccounted(cfg: Config, distinct: bool, start: State, es: seq<Event>, d: State)
    requires IsInitial(start) && Leads(cfg, distinct, start, es, d)
    ensures Accounted(cfg, d)
    decreases |es|
  {
    if es == [] {
      InitialAccounted(cfg, start);
    } else {
      var last := |es| - 1;
      var m := LeadsLast(cfg, distinct, start, es, d);
      RunAccounted(cfg, distinct, start, es[..last], m);
      NextAccounted(cfg, m, es[last]);
    }
  }
}
