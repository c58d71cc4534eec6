/**
 * Any number of providers that share one sidecar. A call reads the sidecar at its gate and writes it, if at
 * all, in its epilogue, long after; between the two, and between its attempts, other calls pass. When a dead
 * token goes out again, and how often its death is reported, over any interleaving.
 */
module SharedVerdicts {
  import opened Basics
  import opened MachineCredentials
  import opened TokenRefresher
  import opened DeadFamilyMemo
  import opened CredentialProvider
  import opened RefreshDiscipline
  import opened RefreshVerdicts

  // ── A call in four parts ──────────────────────────────────────────────────────────────────────

  const EPILOGUE: nat := 3

  /** What part `i` of a call enters in the log: the gate, the first attempt, the retry, what follows a verdict. */
  function Part(cfg: Config, past: Past, c: CallOf, i: nat): seq<Entry> {
    var first := AfterFirst(cfg, past, c);
    if i == 0 then [Saw(c.name, c.snapshot.refreshToken)]
    else if !GateOpen(cfg, past.mem, c.sidecar, c.name, c.snapshot, c.env.now) then []
    else if i == 1 then first.log
    else if i == 2 then
      if RetriesNow(first.outcome, c.retryTransient, c.env)
      then LockedAttempt(cfg, first.mem, first.store, c.name, c.snapshot, c.env.second, true).log
      else []
    else Epilogue(Tries(cfg, past, c), c.name, c.env)
  }

  function Tries(cfg: Config, past: Past, c: CallOf): Section {
    Attempts(cfg, AfterGate(cfg, past, c), c.store, c.name, c.snapshot, c.retryTransient, c.env)
  }

  /** The verdict a call offers to the sidecar. */
  function Offered(cfg: Config, past: Past, c: CallOf): Option<Verdict> {
    var s := Tries(cfg, past, c);
    if && GateOpen(cfg, past.mem, c.sidecar, c.name, c.snapshot, c.env.now) && s.outcome.InvalidGrant?
       && !MovedOn(c.env.reRead, c.name, s.outcome.presented) && cfg.persistMemo
    then
      Some(Verdict(
        s.outcome.presented, DescribeFailure(s.outcome.code, s.outcome.description), c.env.directoryExists, c.env.memoDiskFails))
    else None
  }

  function WithOffer(slot: Sidecar, v: Option<Verdict>): Sidecar {
    if v.Some? then WriteTo(slot, v.value) else slot
  }

  /** The parts together are the call. */
  lemma PartsTogether(cfg: Config, past: Past, c: CallOf)
    ensures Doing(cfg, past, c).log == Part(cfg, past, c, 0) + Part(cfg, past, c, 1) + Part(cfg, past, c, 2) + Part(cfg, past, c, 3)
    ensures Doing(cfg, past, c).sidecar == WithOffer(c.sidecar, Offered(cfg, past, c))
  {
    CallLog(cfg, past, c);
    hide GateOpen, AfterGate, LockedAttempt, Epilogue, Doing, MovedOn, DescribeFailure, WriteTo;
  }

  /** Part `i` sends this token. */
  predicate PartSends(cfg: Config, past: Past, c: CallOf, i: nat, t: Token) {
    && GateOpen(cfg, past.mem, c.sidecar, c.name, c.snapshot, c.env.now)
    && (|| (i == 1 && Holds(cfg, c.env.first, c.name, c.snapshot, t))
        || (i == 2 && RetryFollows(cfg, AfterGate(cfg, past, c), c) && Holds(cfg, c.env.second, c.name, c.snapshot, t)))
  }

  predicate PartReports(cfg: Config, past: Past, c: CallOf, i: nat, t: Token) {
    i >= EPILOGUE && ReportsDeath(cfg, past, c, t)
  }

  lemma AttemptPart(cfg: Config, mem: Memory, store: StoreState, c: CallOf, e: AttemptEnv, retry: bool, t: Token)
    ensures
      var log := LockedAttempt(cfg, mem, store, c.name, c.snapshot, e, retry).log;
      && (Presented(log, c.name, t) <==> Holds(cfg, e, c.name, c.snapshot, t)) && Events(log, c.name, t) == 0
      && forall k :: 0 <= k < |log| ==> log[k].name == c.name && !log[k].Telemetry?
  {
    AttemptLog(cfg, mem, store, c.name, c.snapshot, e, retry);
    SentIs(cfg, mem, e, c.name, c.snapshot);
    hide LockedAttempt, Holds, Sent, LastAnswer;
    var s := LockedAttempt(cfg, mem, store, c.name, c.snapshot, e, retry);
    AttemptPresents(c.name, s, Sent(cfg, mem, e, c.name, c.snapshot), LastAnswer(cfg, mem, e, c.name, c.snapshot), t);
    NoEvents(s.log, c.name, t);
  }

  lemma RetryPart(cfg: Config, past: Past, c: CallOf)
    ensures RetriesNow(AfterFirst(cfg, past, c).outcome, c.retryTransient, c.env) <==> RetryFollows(cfg, AfterGate(cfg, past, c), c)
  {
    AttemptLog(cfg, AfterGate(cfg, past, c), c.store, c.name, c.snapshot, c.env.first, false);
    RetryFollowsExactly(cfg, past, c);
    hide AfterGate, LockedAttempt, Sent, LastAnswer, RetryFollows;
  }

  lemma EpiloguePart(cfg: Config, past: Past, c: CallOf, t: Token)
    requires GateOpen(cfg, past.mem, c.sidecar, c.name, c.snapshot, c.env.now)
    ensures
      var log := Epilogue(Tries(cfg, past, c), c.name, c.env);
      && !Presented(log, c.name, t) && Events(log, c.name, t) == (if ReportsDeath(cfg, past, c, t) then 1 else 0)
      && forall k :: 0 <= k < |log| ==> log[k].name == c.name
  {
    TriesLog(cfg, past, c);
    var s := Tries(cfg, past, c);
    EpilogueIgnoresLog(s, s.log, c.name, c.env);
    EventsOfEpilogue(s, c.name, c.env, t);
    hide AfterGate, Attempts, GateOpen, Tried, Sentenced, MovedOn, Epilogue;
  }

  /** What each part sends and reports, for every token. */
  lemma PartExactly(cfg: Config, past: Past, c: CallOf, i: nat, t: Token)
    ensures
      var log := Part(cfg, past, c, i);
      && (Presented(log, c.name, t) <==> PartSends(cfg, past, c, i, t))
      && Events(log, c.name, t) == (if PartReports(cfg, past, c, i, t) then 1 else 0)
      && forall k :: 0 <= k < |log| ==> log[k].name == c.name
  {
    var mem, first := AfterGate(cfg, past, c), AfterFirst(cfg, past, c);
    if i == 0 {
      OneEvent([], Saw(c.name, c.snapshot.refreshToken), c.name, t);
    } else if GateOpen(cfg, past.mem, c.sidecar, c.name, c.snapshot, c.env.now) {
      RetryPart(cfg, past, c);
      AttemptPart(cfg, mem, c.store, c, c.env.first, false, t);
      AttemptPart(cfg, first.mem, first.store, c, c.env.second, true, t);
      EpiloguePart(cfg, past, c, t);
      hide GateOpen, AfterGate, LockedAttempt, Attempts, Epilogue, Holds, RetryFollows, RetriesNow, Presented, ReportsDeath;
      assert Presented([], c.name, t) == false by { EmptyIsSilent(c.name, t); }
    }
  }

  lemma EmptyIsSilent(name: FamilyName, t: Token)
    ensures !Presented([], name, t)
  {
  }

  // ── The fleet ─────────────────────────────────────────────────────────────────────────────────

  /** A call under way: as it was at its gate, the sidecar it met there included, and its next part. */
  datatype Running = Running(call: CallOf, next: nat)

  /** `pasts` holds what each provider's finished calls have left, `log` all entries in the order they were made. */
  datatype Fleet = Fleet(pasts: map<nat, Past>, running: map<nat, Running>, sidecar: Sidecar, log: seq<Entry>)

  /** A provider passes the gate of a call, or a call under way does its next part. Calls of one provider are sequential. */
  datatype Move = Begins(who: nat, call: CallOf) | Goes(who: nat)

  function PastOf(w: Fleet, who: nat): Past {
    if who in w.pasts then w.pasts[who] else Past(NO_MEMORY, [])
  }

  /** What a move enters in the log. */
  function Added(cfgs: nat -> Config, w: Fleet, m: Move): seq<Entry> {
    match m
    case Begins(who, call) => if who in w.running then [] else Part(cfgs(who), PastOf(w, who), call.(sidecar := w.sidecar), 0)
    case Goes(who) => if who in w.running then Part(cfgs(who), PastOf(w, who), w.running[who].call, w.running[who].next) else []
  }

  /** What a move writes into the sidecar: the offer of a call's last part. */
  function Offer(cfgs: nat -> Config, w: Fleet, m: Move): Option<Verdict> {
    if m.Goes? && m.who in w.running && w.running[m.who].next >= EPILOGUE
    then Offered(cfgs(m.who), PastOf(w, m.who), w.running[m.who].call) else None
  }

  function Moved(cfgs: nat -> Config, w: Fleet, m: Move): Fleet {
    var running :=
      match m
      case Begins(who, call) => if who in w.running then w.running else w.running[who := Running(call.(sidecar := w.sidecar), 1)]
      case Goes(who) =>
        if who !in w.running then w.running
        else if w.running[who].next < EPILOGUE then w.running[who := Running(w.running[who].call, w.running[who].next + 1)]
        else w.running - {who};
    var pasts :=
      if m.Goes? && m.who in w.running && w.running[m.who].next >= EPILOGUE
      then w.pasts[m.who := Perform(cfgs(m.who), PastOf(w, m.who), w.running[m.who].call)] else w.pasts;
    Fleet(pasts, running, WithOffer(w.sidecar, Offer(cfgs, w, m)), w.log + Added(cfgs, w, m))
  }

  function Run(cfgs: nat -> Config, w: Fleet, moves: seq<Move>): Fleet {
    if moves == [] then w else Moved(cfgs, Run(cfgs, w, moves[..|moves| - 1]), moves[|moves| - 1])
  }

  /** The fleet as move `k` of a run finds it. */
  function Before(cfgs: nat -> Config, w: Fleet, moves: seq<Move>, k: nat): Fleet
    requires k <= |moves|
  {
    Run(cfgs, w, moves[..k])
  }

  lemma NextMove(cfgs: nat -> Config, w: Fleet, moves: seq<Move>, k: nat)
    requires k < |moves|
    ensures Before(cfgs, w, moves, k + 1) == Moved(cfgs, Before(cfgs, w, moves, k), moves[k])
  {
    assert moves[..k + 1][..k] == moves[..k];
    hide Moved;
  }

  lemma NothingYet(cfgs: nat -> Config, w: Fleet, moves: seq<Move>)
    ensures Before(cfgs, w, moves, 0) == w
  {
    assert moves[..0] == [];
  }

  function Fresh(sidecar: Sidecar): Fleet {
    Fleet(map[], map[], sidecar, [])
  }

  // ── Each provider by itself ───────────────────────────────────────────────────────────────────

  /** The calls a provider has finished, each with the sidecar it met at its gate. */
  function CallsOf(cfgs: nat -> Config, w: Fleet, moves: seq<Move>, who: nat): seq<CallOf> {
    if moves == [] then []
    else
      var init, m := moves[..|moves| - 1], moves[|moves| - 1];
      var before := Run(cfgs, w, init);
      CallsOf(cfgs, w, init, who) +
      if m == Goes(who) && who in before.running && before.running[who].next >= EPILOGUE then [before.running[who].call] else []
  }

  lemma PerformOneMore(cfg: Config, calls: seq<CallOf>, c: CallOf)
    ensures PerformAll(cfg, calls + [c]) == Perform(cfg, PerformAll(cfg, calls), c)
  {
    hide Perform;
    assert (calls + [c])[..|calls|] == calls;
  }

  /** What a fleet's run makes of one provider is a run of that provider's own calls: `DisciplinedExactly` and `NeverLoops` speak of it. */
  lemma {:induction false} ProviderRunsItsCalls(cfgs: nat -> Config, sidecar: Sidecar, moves: seq<Move>, who: nat)
    ensures PastOf(Run(cfgs, Fresh(sidecar), moves), who) == PerformAll(cfgs(who), CallsOf(cfgs, Fresh(sidecar), moves, who))
  {
    if moves != [] {
      var init, m := moves[..|moves| - 1], moves[|moves| - 1];
      var before := Run(cfgs, Fresh(sidecar), init);
      var calls := CallsOf(cfgs, Fresh(sidecar), init, who);
      ProviderRunsItsCalls(cfgs, sidecar, init, who);
      hide Perform, Part, Offered, WithOffer;
      if m == Goes(who) && who in before.running && before.running[who].next >= EPILOGUE {
        PerformOneMore(cfgs(who), calls, before.running[who].call);
      } else {
        assert calls + [] == calls;
      }
    }
  }

  /** Every call under way or to come has its gate before its first attempt. */
  ghost predicate InTime(calls: seq<CallOf>, w: Fleet) {
    ClockRuns(calls) && forall who :: who in w.running ==> w.running[who].call.env.now <= w.running[who].call.env.first.at
  }

  lemma {:induction false} CallsInTime(cfgs: nat -> Config, sidecar: Sidecar, moves: seq<Move>, who: nat)
    requires forall k :: 0 <= k < |moves| && moves[k].Begins? ==> moves[k].call.env.now <= moves[k].call.env.first.at
    ensures InTime(CallsOf(cfgs, Fresh(sidecar), moves, who), Run(cfgs, Fresh(sidecar), moves))
  {
    if moves != [] {
      hide Perform, Part, Offered, WithOffer, PastOf;
      CallsInTime(cfgs, sidecar, moves[..|moves| - 1], who);
    }
  }

  /** A provider's own run within the fleet's keeps everything a single provider's run keeps. */
  lemma EveryProviderKeeps(cfgs: nat -> Config, sidecar: Sidecar, moves: seq<Move>, who: nat)
    requires forall k :: 0 <= k < |moves| && moves[k].Begins? ==> moves[k].call.env.now <= moves[k].call.env.first.at
    ensures
      var past := PastOf(Run(cfgs, Fresh(sidecar), moves), who);
      RefreshDiscipline.Kept(cfgs(who), past.mem, past.log)
  {
    ProviderRunsItsCalls(cfgs, sidecar, moves, who);
    CallsInTime(cfgs, sidecar, moves, who);
    NeverLoops(cfgs(who), CallsOf(cfgs, Fresh(sidecar), moves, who));
    hide Run, CallsOf, PerformAll, RefreshDiscipline.Kept;
  }

  // ── The whole fleet, move by move ─────────────────────────────────────────────────────────────

  /** Move `m` sends this token of this family. */
  predicate SendsNow(cfgs: nat -> Config, w: Fleet, m: Move, name: FamilyName, t: Token) {
    && m.Goes? && m.who in w.running && w.running[m.who].call.name == name
    && PartSends(cfgs(m.who), PastOf(w, m.who), w.running[m.who].call, w.running[m.who].next, t)
  }

  /** Move `m` reports the death of this token. */
  predicate ReportsNow(cfgs: nat -> Config, w: Fleet, m: Move, name: FamilyName, t: Token) {
    && m.Goes? && m.who in w.running && w.running[m.who].call.name == name
    && PartReports(cfgs(m.who), PastOf(w, m.who), w.running[m.who].call, w.running[m.who].next, t)
  }

  /** A part that is not the gate, and the gate, which is part 0. */
  lemma MoveExactly(cfgs: nat -> Config, w: Fleet, m: Move, name: FamilyName, t: Token)
    ensures
      var log := Added(cfgs, w, m);
      && (Presented(log, name, t) <==> SendsNow(cfgs, w, m, name, t))
      && Events(log, name, t) == if ReportsNow(cfgs, w, m, name, t) then 1 else 0
  {
    if m.Goes? == (m.who !in w.running) {
      assert Added(cfgs, w, m) == [];
    } else {
      var c := if m.Begins? then m.call.(sidecar := w.sidecar) else w.running[m.who].call;
      var i := if m.Begins? then 0 else w.running[m.who].next;
      PartExactly(cfgs(m.who), PastOf(w, m.who), c, i, t);
      hide Part, GateOpen, Holds, RetryFollows, ReportsDeath, AfterGate, Presented;
      if name != c.name { OtherNamesAreSilent(Part(cfgs(m.who), PastOf(w, m.who), c, i), c.name, name, t); }
    }
  }

  /** The token was sent in the part of the run that `w` does not hold yet. */
  predicate PresentedSince(w: Fleet, now: Fleet, name: FamilyName, t: Token) {
    |w.log| <= |now.log| && Presented(now.log[|w.log|..], name, t)
  }

  lemma {:induction false} LogGrows(cfgs: nat -> Config, w: Fleet, moves: seq<Move>, k: nat)
    requires k <= |moves|
    ensures w.log <= Before(cfgs, w, moves, k).log
  {
    if k == 0 {
      NothingYet(cfgs, w, moves);
    } else {
      NextMove(cfgs, w, moves, k - 1);
      hide Before, Added, Offer, WithOffer;
      LogGrows(cfgs, w, moves, k - 1);
    }
  }

  /** What move `k` adds. */
  lemma OneMove(cfgs: nat -> Config, w: Fleet, moves: seq<Move>, k: nat, name: FamilyName, t: Token)
    requires k < |moves|
    ensures
      var before, after := Before(cfgs, w, moves, k), Before(cfgs, w, moves, k + 1);
      && (PresentedSince(w, after, name, t) <==> PresentedSince(w, before, name, t) || SendsNow(cfgs, before, moves[k], name, t))
      && Events(after.log, name, t) == Events(before.log, name, t) + if ReportsNow(cfgs, before, moves[k], name, t) then 1 else 0
  {
    var before, m := Before(cfgs, w, moves, k), moves[k];
    NextMove(cfgs, w, moves, k);
    LogGrows(cfgs, w, moves, k);
    MoveExactly(cfgs, before, m, name, t);
    hide Before, Added, Offer, WithOffer, SendsNow, ReportsNow, Presented, Perform;
    var log := Added(cfgs, before, m);
    assert (before.log + log)[|w.log|..] == before.log[|w.log|..] + log;
    PresentedInSum(before.log[|w.log|..], log, name, t);
    EventsOfSum(before.log, log, name, t);
  }

  /** How many of the first `k` moves report the death of this token. */
  function Reporting(cfgs: nat -> Config, w: Fleet, moves: seq<Move>, k: nat, name: FamilyName, t: Token): nat
    requires k <= |moves|
  {
    if k == 0 then 0
    else Reporting(cfgs, w, moves, k - 1, name, t) + if ReportsNow(cfgs, Before(cfgs, w, moves, k - 1), moves[k - 1], name, t) then 1 else 0
  }

  /** One of the first `k` moves sends this token. */
  ghost predicate SomeMoveSends(cfgs: nat -> Config, w: Fleet, moves: seq<Move>, k: nat, name: FamilyName, t: Token)
    requires k <= |moves|
  {
    exists i :: 0 <= i < k && SendsNow(cfgs, Before(cfgs, w, moves, i), moves[i], name, t)
  }

  lemma SomeMoveOrTheLast(cfgs: nat -> Config, w: Fleet, moves: seq<Move>, k: nat, name: FamilyName, t: Token)
    requires k < |moves|
    ensures SomeMoveSends(cfgs, w, moves, k + 1, name, t) <==>
              SomeMoveSends(cfgs, w, moves, k, name, t) || SendsNow(cfgs, Before(cfgs, w, moves, k), moves[k], name, t)
  {
    hide SendsNow, Before;
  }

  /** A token goes out in a run exactly if one of the moves, as the fleet then stands, sends it; each event is one move that reports. */
  lemma {:induction false} RunExactly(cfgs: nat -> Config, w: Fleet, moves: seq<Move>, k: nat, name: FamilyName, t: Token)
    requires k <= |moves|
    ensures PresentedSince(w, Before(cfgs, w, moves, k), name, t) <==> SomeMoveSends(cfgs, w, moves, k, name, t)
    ensures Events(Before(cfgs, w, moves, k).log, name, t) == Events(w.log, name, t) + Reporting(cfgs, w, moves, k, name, t)
  {
    if k == 0 {
      NothingYet(cfgs, w, moves);
      hide Before, SendsNow, ReportsNow, Events;
    } else {
      hide Before, SomeMoveSends, PresentedSince, SendsNow, ReportsNow, Events;
      RunExactly(cfgs, w, moves, k - 1, name, t);
      OneMove(cfgs, w, moves, k - 1, name, t);
      SomeMoveOrTheLast(cfgs, w, moves, k - 1, name, t);
    }
  }

  // ── Once the sidecar names a token ────────────────────────────────────────────────────────────

  /** Part `i` of a call that met the record at its gate sends the token: its snapshot shows another token than the locked read. */
  predicate PartSlips(cfg: Config, past: Past, c: CallOf, i: nat, t: Token) {
    && c.snapshot.refreshToken != Some(t)
    && !(c.name in past.mem.dead && past.mem.dead[c.name].token == c.snapshot.refreshToken)
    && WindowPassed(cfg, past.mem, c.name, c.env.now)
    && (|| (i == 1 && Holds(cfg, c.env.first, c.name, c.snapshot, t))
        || (i == 2 && RetryFollows(cfg, AfterGate(cfg, past, c), c) && Holds(cfg, c.env.second, c.name, c.snapshot, t)))
  }

  lemma SlipsExactly(cfg: Config, past: Past, c: CallOf, i: nat, t: Token)
    requires cfg.persistMemo && MatchIn(c.sidecar, t).Some?
    ensures PartSends(cfg, past, c, i, t) <==> PartSlips(cfg, past, c, i, t)
  {
    hide Holds, RetryFollows, AfterGate, Window;
  }

  /** Calls of this family under way that passed their gate while the sidecar did not name the token. */
  function Blind(w: Fleet, name: FamilyName, t: Token): set<nat> {
    set who | who in w.running && w.running[who].call.name == name && MatchIn(w.running[who].call.sidecar, t).None?
  }

  /** Every provider that acts consults the sidecar. */
  ghost predicate AllPersist(cfgs: nat -> Config, w: Fleet, moves: seq<Move>) {
    (forall who :: who in w.running ==> cfgs(who).persistMemo) && forall k :: 0 <= k < |moves| ==> cfgs(moves[k].who).persistMemo
  }

  predicate SlipsNow(cfgs: nat -> Config, w: Fleet, m: Move, name: FamilyName, t: Token) {
    && m.Goes? && m.who in w.running && w.running[m.who].call.name == name
    && PartSlips(cfgs(m.who), PastOf(w, m.who), w.running[m.who].call, w.running[m.who].next, t)
  }

  /** A call that passes its gate while the sidecar names the token is not blind, and no other call becomes so. */
  lemma MoveBlinds(cfgs: nat -> Config, w: Fleet, m: Move, name: FamilyName, t: Token)
    requires MatchIn(w.sidecar, t).Some?
    ensures Blind(Moved(cfgs, w, m), name, t) <= Blind(w, name, t)
    ensures m.Goes? && m.who in w.running && w.running[m.who].next >= EPILOGUE ==> m.who !in Blind(Moved(cfgs, w, m), name, t)
  {
    hide Perform, Part, Offered, WithOffer, PastOf, MatchIn;
  }

  lemma {:induction false} NoneGoesBlind(cfgs: nat -> Config, w: Fleet, moves: seq<Move>, k: nat, name: FamilyName, t: Token)
    requires k <= |moves| && forall i :: 0 <= i < |moves| ==> MatchIn(Before(cfgs, w, moves, i).sidecar, t).Some?
    ensures Blind(Before(cfgs, w, moves, k), name, t) <= Blind(w, name, t)
  {
    if k == 0 {
      NothingYet(cfgs, w, moves);
    } else {
      NextMove(cfgs, w, moves, k - 1);
      hide Before, Moved, Blind, MatchIn;
      NoneGoesBlind(cfgs, w, moves, k - 1, name, t);
      MoveBlinds(cfgs, Before(cfgs, w, moves, k - 1), moves[k - 1], name, t);
    }
  }

  /**
   * As long as the sidecar names the token, and no call under way had passed its gate before it did, the token
   * goes out in a run exactly if some call slips.
   */
  lemma RecordedTokenInRunExactly(cfgs: nat -> Config, w: Fleet, moves: seq<Move>, name: FamilyName, t: Token)
    requires AllPersist(cfgs, w, moves) && Blind(w, name, t) == {}
    requires forall k :: 0 <= k < |moves| ==> MatchIn(Before(cfgs, w, moves, k).sidecar, t).Some?
    ensures PresentedSince(w, Run(cfgs, w, moves), name, t) <==>
              exists k :: 0 <= k < |moves| && SlipsNow(cfgs, Before(cfgs, w, moves, k), moves[k], name, t)
  {
    RunExactly(cfgs, w, moves, |moves|, name, t);
    assert moves[..|moves|] == moves;
    forall k | 0 <= k < |moves|
      ensures SendsNow(cfgs, Before(cfgs, w, moves, k), moves[k], name, t) <==> SlipsNow(cfgs, Before(cfgs, w, moves, k), moves[k], name, t)
    {
      NoneGoesBlind(cfgs, w, moves, k, name, t);
      SlipsAreSends(cfgs, Before(cfgs, w, moves, k), moves[k], name, t);
    }
    hide SendsNow, SlipsNow, PresentedSince, Run, MatchIn;
  }

  lemma SlipsAreSends(cfgs: nat -> Config, w: Fleet, m: Move, name: FamilyName, t: Token)
    requires cfgs(m.who).persistMemo && Blind(w, name, t) == {}
    ensures SendsNow(cfgs, w, m, name, t) <==> SlipsNow(cfgs, w, m, name, t)
  {
    hide PartSends, PartSlips, MatchIn, PastOf;
    if m.Goes? && m.who in w.running && w.running[m.who].call.name == name {
      assert m.who !in Blind(w, name, t);
      SlipsExactly(cfgs(m.who), PastOf(w, m.who), w.running[m.who].call, w.running[m.who].next, t);
    }
  }

  /** What the locked reads of the call show as this token, its snapshot shows too. */
  predicate Candid(cfg: Config, c: CallOf, t: Token) {
    c.snapshot.refreshToken != Some(t) ==> !Holds(cfg, c.env.first, c.name, c.snapshot, t) && !Holds(cfg, c.env.second, c.name, c.snapshot, t)
  }

  /** Every call under way, and every call to come, consults the sidecar and is candid. */
  ghost predicate AllCandid(cfgs: nat -> Config, w: Fleet, moves: seq<Move>, t: Token) {
    && RunningCandid(cfgs, w, t)
    && forall k :: 0 <= k < |moves| && moves[k].Begins? ==> cfgs(moves[k].who).persistMemo && Candid(cfgs(moves[k].who), moves[k].call, t)
  }

  ghost predicate RunningCandid(cfgs: nat -> Config, w: Fleet, t: Token) {
    forall who :: who in w.running ==> cfgs(who).persistMemo && Candid(cfgs(who), w.running[who].call, t)
  }

  /** From this entry on, nothing but this token's death is reported. */
  predicate NoOtherDeath(log: seq<Entry>, from: nat, t: Token) {
    forall k :: from <= k < |log| && log[k].Telemetry? ==> log[k].dead == t
  }

  lemma NoOtherDeathInMove(log: seq<Entry>, more: seq<Entry>, from: nat, t: Token)
    requires NoOtherDeath(log + more, from, t) && from <= |log|
    ensures NoOtherDeath(log, from, t) && NoOtherDeath(more, 0, t)
  {
    forall k | from <= k < |log| && log[k].Telemetry? ensures log[k].dead == t { assert (log + more)[k] == log[k]; }
    forall k | 0 <= k < |more| && more[k].Telemetry? ensures more[k].dead == t { assert (log + more)[|log| + k] == more[k]; }
  }

  lemma {:induction false} NoneOf(log: seq<Entry>, name: FamilyName, t: Token, u: Token)
    requires u != t && NoOtherDeath(log, 0, t)
    ensures Events(log, name, u) == 0
  {
    if log != [] {
      assert NoOtherDeath(log[..|log| - 1], 0, t);
      NoneOf(log[..|log| - 1], name, t, u);
    }
  }

  /** A candid call that met the record neither sends the token nor reports its death. */
  lemma CandidCallIsSilent(cfg: Config, past: Past, c: CallOf, i: nat, t: Token)
    requires cfg.persistMemo && MatchIn(c.sidecar, t).Some? && Candid(cfg, c, t)
    ensures !PartSends(cfg, past, c, i, t) && !PartReports(cfg, past, c, i, t)
  {
    SlipsExactly(cfg, past, c, i, t);
    RecordedSlips(cfg, past, c, t);
    CondemnedIsPresented(cfg, past, c);
    hide Holds, GateOpen, RetryFollows, MatchIn, FinalAnswer, AfterGate, Condemns, Presents;
  }

  /** What a call offers, and what its offer does to the slot. */
  lemma OfferIs(cfg: Config, past: Past, c: CallOf, slot: Sidecar, t: Token)
    ensures Offered(cfg, past, c).Some? ==> ReportsDeath(cfg, past, c, Offered(cfg, past, c).value.token)
    ensures ReportsDeath(cfg, past, c, t) && Recorded(cfg, past, c) ==>
              Offered(cfg, past, c).Some? && MatchIn(WithOffer(slot, Offered(cfg, past, c)), t).Some?
  {
    TriesLog(cfg, past, c);
    var s := Tries(cfg, past, c);
    hide AfterGate, Attempts, GateOpen, Tried, MovedOn, FinalAnswer, Holds, RetryFollows, IsClientIdMismatchText, DescribeFailure;
    if s.outcome.InvalidGrant? {
      assert Sentenced(cfg, past, c, s.outcome.presented);
      if Recorded(cfg, past, c) { VerdictIsNoMismatch(s.outcome.code, s.outcome.description); }
    }
  }

  /** An offer about the token the slot names leaves it named. */
  lemma SlotStays(slot: Sidecar, v: Option<Verdict>, t: Token)
    requires MatchIn(slot, t).Some? && (v.Some? ==> v.value.token == t)
    ensures MatchIn(WithOffer(slot, v), t).Some?
  {
    hide IsClientIdMismatchText;
  }

  /** A move while the slot names the token: the slot goes on naming it, and only a blind call sends or reports it, the latter as its last move. */
  lemma MoveBounded(cfgs: nat -> Config, w: Fleet, m: Move, name: FamilyName, t: Token)
    requires MatchIn(w.sidecar, t).Some? && RunningCandid(cfgs, w, t) && NoOtherDeath(Added(cfgs, w, m), 0, t)
    ensures MatchIn(Moved(cfgs, w, m).sidecar, t).Some?
    ensures SendsNow(cfgs, w, m, name, t) || ReportsNow(cfgs, w, m, name, t) ==> m.who in Blind(w, name, t)
    ensures ReportsNow(cfgs, w, m, name, t) ==> m.who !in Blind(Moved(cfgs, w, m), name, t)
  {
    MoveBlinds(cfgs, w, m, name, t);
    if m.Goes? && m.who in w.running {
      var cfg, past, c, i := cfgs(m.who), PastOf(w, m.who), w.running[m.who].call, w.running[m.who].next;
      if MatchIn(c.sidecar, t).Some? { CandidCallIsSilent(cfg, past, c, i, t); }
      OfferIs(cfg, past, c, w.sidecar, t);
      var v := Offer(cfgs, w, m);
      if v.Some? && v.value.token != t {
        NoneOf(Added(cfgs, w, m), c.name, t, v.value.token);
        MoveExactly(cfgs, w, m, c.name, v.value.token);
      }
      hide PartSends, ReportsDeath, Part, Offered, MatchIn, Candid, PastOf, Perform;
      SlotStays(w.sidecar, v, t);
    }
  }

  lemma CandidMoves(cfgs: nat -> Config, w: Fleet, m: Move, t: Token)
    requires RunningCandid(cfgs, w, t) && (m.Begins? ==> cfgs(m.who).persistMemo && Candid(cfgs(m.who), m.call, t))
    ensures RunningCandid(cfgs, Moved(cfgs, w, m), t)
  {
    hide Perform, Part, Offered, WithOffer, PastOf, Holds;
  }

  lemma {:induction false} Fewer(a: set<nat>, b: set<nat>)
    requires a <= b
    ensures |a| <= |b| && (forall x :: x in b && x !in a ==> |a| < |b|)
  {
    if a == {} {
    } else {
      var x :| x in a;
      Fewer(a - {x}, b - {x});
    }
  }

  /** The bound, for one move. */
  lemma MoveCounts(cfgs: nat -> Config, w: Fleet, m: Move, name: FamilyName, t: Token)
    requires MatchIn(w.sidecar, t).Some? && RunningCandid(cfgs, w, t) && NoOtherDeath(Added(cfgs, w, m), 0, t)
    requires m.Begins? ==> cfgs(m.who).persistMemo && Candid(cfgs(m.who), m.call, t)
    ensures
      var now := Moved(cfgs, w, m);
      && MatchIn(now.sidecar, t).Some? && RunningCandid(cfgs, now, t)
      && Blind(now, name, t) <= Blind(w, name, t)
      && (if ReportsNow(cfgs, w, m, name, t) then 1 else 0) + |Blind(now, name, t)| <= |Blind(w, name, t)|
      && (Blind(w, name, t) == {} ==> !SendsNow(cfgs, w, m, name, t))
  {
    hide Moved, Added, SendsNow, ReportsNow, Candid, MatchIn, NoOtherDeath, Blind, RunningCandid;
    MoveBlinds(cfgs, w, m, name, t);
    MoveBounded(cfgs, w, m, name, t);
    CandidMoves(cfgs, w, m, t);
    Fewer(Blind(Moved(cfgs, w, m), name, t), Blind(w, name, t));
  }

  /** Since `w` the slot has named the token, and only the calls blind then have sent it or reported its death, each at most once. */
  ghost predicate Bounded(cfgs: nat -> Config, w: Fleet, now: Fleet, name: FamilyName, t: Token) {
    && MatchIn(now.sidecar, t).Some? && RunningCandid(cfgs, now, t)
    && Blind(now, name, t) <= Blind(w, name, t)
    && Events(now.log, name, t) + |Blind(now, name, t)| <= Events(w.log, name, t) + |Blind(w, name, t)|
    && (Blind(w, name, t) == {} ==> !PresentedSince(w, now, name, t))
  }

  lemma BoundedAtFirst(cfgs: nat -> Config, w: Fleet, name: FamilyName, t: Token)
    requires MatchIn(w.sidecar, t).Some? && RunningCandid(cfgs, w, t)
    ensures Bounded(cfgs, w, w, name, t)
  {
    hide MatchIn, RunningCandid, Blind;
  }

  lemma BoundedNext(cfgs: nat -> Config, w: Fleet, moves: seq<Move>, k: nat, name: FamilyName, t: Token)
    requires k < |moves| && Bounded(cfgs, w, Before(cfgs, w, moves, k), name, t)
    requires NoOtherDeath(Added(cfgs, Before(cfgs, w, moves, k), moves[k]), 0, t)
    requires moves[k].Begins? ==> cfgs(moves[k].who).persistMemo && Candid(cfgs(moves[k].who), moves[k].call, t)
    ensures Bounded(cfgs, w, Before(cfgs, w, moves, k + 1), name, t)
  {
    NextMove(cfgs, w, moves, k);
    OneMove(cfgs, w, moves, k, name, t);
    hide Before, Moved, Added, SendsNow, ReportsNow, Candid, PresentedSince, MatchIn, NoOtherDeath, Blind, RunningCandid, Events;
    MoveCounts(cfgs, Before(cfgs, w, moves, k), moves[k], name, t);
  }

  /**
   * Once the sidecar names a token, its death is reported at most once more by each call that was already past
   * its gate, and by nobody else; if there is no such call the token is not even sent. This holds as long as
   * every locked read that shows the token agrees with the snapshot before it, and no other death is reported,
   * which would take the only slot.
   */
  lemma {:induction false} RecordedDeathIsBounded(cfgs: nat -> Config, w: Fleet, moves: seq<Move>, k: nat, name: FamilyName, t: Token)
    requires k <= |moves| && MatchIn(w.sidecar, t).Some? && AllCandid(cfgs, w, moves, t)
    requires NoOtherDeath(Before(cfgs, w, moves, k).log, |w.log|, t)
    ensures Bounded(cfgs, w, Before(cfgs, w, moves, k), name, t)
  {
    if k == 0 {
      NothingYet(cfgs, w, moves);
      BoundedAtFirst(cfgs, w, name, t);
    } else {
      var before, m := Before(cfgs, w, moves, k - 1), moves[k - 1];
      NextMove(cfgs, w, moves, k - 1);
      LogGrows(cfgs, w, moves, k - 1);
      NoOtherDeathInMove(before.log, Added(cfgs, before, m), |w.log|, t);
      hide Before, Added, Bounded, Candid, MatchIn, NoOtherDeath, RunningCandid;
      RecordedDeathIsBounded(cfgs, w, moves, k - 1, name, t);
      BoundedNext(cfgs, w, moves, k - 1, name, t);
    }
  }

  /** With no call past its gate when the record was made: nobody presents the token or reports its death again. */
  lemma RecordedTokenStaysSilent(cfgs: nat -> Config, w: Fleet, moves: seq<Move>, name: FamilyName, t: Token)
    requires MatchIn(w.sidecar, t).Some? && AllCandid(cfgs, w, moves, t) && Blind(w, name, t) == {}
    requires NoOtherDeath(Run(cfgs, w, moves).log, |w.log|, t)
    ensures !PresentedSince(w, Run(cfgs, w, moves), name, t)
    ensures Events(Run(cfgs, w, moves).log, name, t) == Events(w.log, name, t)
  {
    assert moves[..|moves|] == moves;
    hide Run, Blind, PresentedSince, MatchIn, NoOtherDeath, AllCandid, Reporting, SomeMoveSends;
    RecordedDeathIsBounded(cfgs, w, moves, |moves|, name, t);
    RunExactly(cfgs, w, moves, |moves|, name, t);
  }

  /**
   * A death that is reported and recorded has one event, plus at most one for each call of the family that was
   * past its gate at that moment, whoever calls afterwards.
   */
  lemma RecordedDeathIsReportedOnce(cfgs: nat -> Config, w: Fleet, m: Move, rest: seq<Move>, name: FamilyName, t: Token)
    requires ReportsNow(cfgs, w, m, name, t) && Recorded(cfgs(m.who), PastOf(w, m.who), w.running[m.who].call)
    requires AllCandid(cfgs, Moved(cfgs, w, m), rest, t)
    requires NoOtherDeath(Run(cfgs, Moved(cfgs, w, m), rest).log, |Moved(cfgs, w, m).log|, t)
    ensures
      var recorded := Moved(cfgs, w, m);
      var events := Events(Run(cfgs, recorded, rest).log, name, t) - Events(w.log, name, t);
      1 <= events <= 1 + |Blind(recorded, name, t)|
  {
    var recorded := Moved(cfgs, w, m);
    OfferIs(cfgs(m.who), PastOf(w, m.who), w.running[m.who].call, w.sidecar, t);
    MoveExactly(cfgs, w, m, name, t);
    EventsOfSum(w.log, Added(cfgs, w, m), name, t);
    assert rest[..|rest|] == rest;
    hide Run, Blind, Part, ReportsDeath, Recorded, Offered, NoOtherDeath, AllCandid, Reporting, Perform, SomeMoveSends, PresentedSince, MatchIn;
    RecordedDeathIsBounded(cfgs, recorded, rest, |rest|, name, t);
    RunExactly(cfgs, recorded, rest, |rest|, name, t);
  }

  // ── Calls that nobody interrupts ──────────────────────────────────────────────────────────────

  function Rest(who: nat): seq<Move> {
    [Goes(who), Goes(who), Goes(who)]
  }

  function Whole(who: nat, call: CallOf): seq<Move> {
    [Begins(who, call)] + Rest(who)
  }

  lemma {:induction false} RunAppend(cfgs: nat -> Config, w: Fleet, a: seq<Move>, b: seq<Move>)
    ensures Run(cfgs, w, a + b) == Run(cfgs, Run(cfgs, w, a), b)
  {
    hide Moved;
    if b == [] {
      assert a + b == a;
    } else {
      assert (a + b)[..|a + b| - 1] == a + b[..|b| - 1];
      RunAppend(cfgs, w, a, b[..|b| - 1]);
    }
  }

  lemma RunOfOne(cfgs: nat -> Config, w: Fleet, m: Move)
    ensures Run(cfgs, w, [m]) == Moved(cfgs, w, m)
  {
    hide Moved;
    assert [m][..0] == [];
    assert Run(cfgs, w, []) == w;
  }

  lemma RunOfThree(cfgs: nat -> Config, w: Fleet, l: Move, m: Move, n: Move)
    ensures Run(cfgs, w, [l, m, n]) == Moved(cfgs, Moved(cfgs, Moved(cfgs, w, l), m), n)
  {
    hide Moved;
    RunOfOne(cfgs, w, l);
    RunAppend(cfgs, w, [l], [m]);
    RunOfOne(cfgs, Moved(cfgs, w, l), m);
    RunAppend(cfgs, w, [l] + [m], [n]);
    assert [l] + [m] + [n] == [l, m, n];
    RunOfOne(cfgs, Moved(cfgs, Moved(cfgs, w, l), m), n);
  }

  /** A call just past its gate does the rest in one go. */
  function Finished(cfgs: nat -> Config, w: Fleet, who: nat): Fleet
    requires who in w.running
  {
    var cfg, past, c := cfgs(who), PastOf(w, who), w.running[who].call;
    Fleet(w.pasts[who := Perform(cfg, past, c)], w.running - {who}, WithOffer(w.sidecar, Offered(cfg, past, c)),
          w.log + Part(cfg, past, c, 1) + Part(cfg, past, c, 2) + Part(cfg, past, c, 3))
  }

  lemma Finishes(cfgs: nat -> Config, w: Fleet, who: nat)
    requires who in w.running && w.running[who].next == 1
    ensures Run(cfgs, w, Rest(who)) == Finished(cfgs, w, who)
  {
    RunOfThree(cfgs, w, Goes(who), Goes(who), Goes(who));
    hide Run, Perform, Part, Offered;
    var one := Moved(cfgs, w, Goes(who));
    var two := Moved(cfgs, one, Goes(who));
    assert two.running - {who} == w.running - {who};
  }

  lemma FinishReports(cfgs: nat -> Config, w: Fleet, who: nat, t: Token)
    requires who in w.running && ReportsDeath(cfgs(who), PastOf(w, who), w.running[who].call, t)
    ensures
      var name := w.running[who].call.name;
      Events(Finished(cfgs, w, who).log, name, t) == Events(w.log, name, t) + 1
  {
    var cfg, past, c := cfgs(who), PastOf(w, who), w.running[who].call;
    PartExactly(cfg, past, c, 1, t);
    PartExactly(cfg, past, c, 2, t);
    PartExactly(cfg, past, c, 3, t);
    hide Part, ReportsDeath, PartSends, Presented, Perform, Offered;
    EventsOfSum(w.log, Part(cfg, past, c, 1), c.name, t);
    EventsOfSum(w.log + Part(cfg, past, c, 1), Part(cfg, past, c, 2), c.name, t);
    EventsOfSum(w.log + Part(cfg, past, c, 1) + Part(cfg, past, c, 2), Part(cfg, past, c, 3), c.name, t);
  }

  /** The fleet after a whole call with nobody in between. */
  function Uninterrupted(cfgs: nat -> Config, w: Fleet, who: nat, call: CallOf): Fleet {
    var c := call.(sidecar := w.sidecar);
    var r := Doing(cfgs(who), PastOf(w, who), c);
    Fleet(w.pasts[who := Perform(cfgs(who), PastOf(w, who), c)], w.running, r.sidecar, w.log + r.log)
  }

  lemma FinishedIsUninterrupted(cfgs: nat -> Config, w: Fleet, who: nat, call: CallOf)
    requires who !in w.running
    ensures
      var begun := Moved(cfgs, w, Begins(who, call));
      && who in begun.running && begun.running[who].next == 1
      && Finished(cfgs, begun, who) == Uninterrupted(cfgs, w, who, call)
  {
    var begun := Moved(cfgs, w, Begins(who, call));
    PartsTogether(cfgs(who), PastOf(w, who), call.(sidecar := w.sidecar));
    hide Perform, Part, Offered, Doing, WithOffer;
    assert begun.running - {who} == w.running;
    assert WithOffer(w.sidecar, None) == w.sidecar by { NoOffer(w.sidecar); }
  }

  lemma NoOffer(slot: Sidecar)
    ensures WithOffer(slot, None) == slot
  {
  }

  lemma WholeCall(cfgs: nat -> Config, w: Fleet, who: nat, call: CallOf)
    requires who !in w.running
    ensures Run(cfgs, w, Whole(who, call)) == Uninterrupted(cfgs, w, who, call)
  {
    hide Run, Moved, Finished, Uninterrupted;
    FinishedIsUninterrupted(cfgs, w, who, call);
    RunAppend(cfgs, w, [Begins(who, call)], Rest(who));
    RunOfOne(cfgs, w, Begins(who, call));
    Finishes(cfgs, Moved(cfgs, w, Begins(who, call)), who);
  }

  lemma TwoWholeCalls(cfgs: nat -> Config, w: Fleet, a: nat, first: CallOf, b: nat, second: CallOf)
    requires a !in w.running && b !in w.running
    ensures Run(cfgs, w, Whole(a, first) + Whole(b, second)) == Uninterrupted(cfgs, Uninterrupted(cfgs, w, a, first), b, second)
  {
    WholeCall(cfgs, w, a, first);
    WholeCall(cfgs, Uninterrupted(cfgs, w, a, first), b, second);
    hide Run, Whole, Perform, Doing;
    RunAppend(cfgs, w, Whole(a, first), Whole(b, second));
  }

  // ── Runs in which a dead token goes out again ─────────────────────────────────────────────────

  /** What a reported verdict leaves in the provider's memory and in the slot. */
  lemma AfterReport(cfg: Config, past: Past, c: CallOf, t: Token)
    requires GateOpen(cfg, past.mem, c.sidecar, c.name, c.snapshot, c.env.now) && Holds(cfg, c.env.first, c.name, c.snapshot, t)
    requires !c.retryTransient && IsVerdict(FinalAnswer(cfg, past, c)) && c.env.reRead.None?
    ensures ReportsDeath(cfg, past, c, t)
    ensures
      var r := Doing(cfg, past, c);
      && c.name in r.mem.dead && r.mem.dead[c.name].token == Some(t)
      && r.mem.lastAttempt == past.mem.lastAttempt[c.name := Attempt(c.env.first.at, false)]
      && (Recorded(cfg, past, c) ==> MatchIn(r.sidecar, t).Some?)
  {
    SlotAfterCall(cfg, past, c, t);
    GateOpenExactly(cfg, past.mem, c.sidecar, c.name, c.snapshot, c.env.now);
    GateHasShape(cfg, past.mem, c.sidecar, c.name, c.snapshot, c.env.now);
    HoldsExactly(cfg, AfterGate(cfg, past, c), c.env.first, c.name, c.snapshot, t);
    SectionAsks(cfg, AfterGate(cfg, past, c), c.store, c.name, c.snapshot, c.env.first, false);
    AttemptLog(cfg, AfterGate(cfg, past, c), c.store, c.name, c.snapshot, c.env.first, false);
    hide GateOf, CriticalSection, LastAnswer, Holds, Decide, MatchIn, IsVerdict, GateOpen, Recorded, WriteTo, DescribeFailure;
  }

  const EVERY: nat -> Config := _ => Config(1000, Some("c"), [], true)

  function Carrying(id: nat): Family {
    Family(Some(Tok(0)), Some(Tok(id)), Some(0), Some("c"), None, map[])
  }

  function Keeping(name: FamilyName, f: Family): StoreState {
    Readable(EMPTY.(version := Some(V2), families := Some(map[name := f])))
  }

  /** A call that reads one token without the lock and one under it, and hears that the latter is dead. */
  function Doomed(name: FamilyName, before: nat, under: nat, at: int): CallOf {
    var attempt := AttemptEnv(false, Some(Keeping(name, Carrying(under))), at, _ => Answer(Failure(INVALID_GRANT, None, false), false), false, false);
    CallOf(name, Carrying(before), false, NoSidecar, Missing, CallEnv(at, attempt, false, attempt, None, true, false))
  }

  lemma DoomedReports(past: Past, sidecar: Sidecar, name: FamilyName, before: nat, under: nat, at: int)
    requires at >= 0
    requires GateOpen(EVERY(0), past.mem, sidecar, name, Carrying(before), at)
    ensures
      var c := Doomed(name, before, under, at).(sidecar := sidecar);
      var r := Doing(EVERY(0), past, c);
      && ReportsDeath(EVERY(0), past, c, Tok(under)) && Presents(EVERY(0), past, c, Tok(under))
      && name in r.mem.dead && r.mem.dead[name].token == Some(Tok(under))
      && r.mem.lastAttempt == past.mem.lastAttempt[name := Attempt(at, false)]
      && MatchIn(r.sidecar, Tok(under)).Some?
      && forall id :: MatchIn(r.sidecar, Tok(id)).Some? ==> id == under
  {
    var cfg := EVERY(0);
    var c := Doomed(name, before, under, at).(sidecar := sidecar);
    TrimOfTrimmed("c");
    assert Holds(cfg, c.env.first, name, c.snapshot, Tok(under));
    HoldsExactly(cfg, AfterGate(cfg, past, c), c.env.first, name, c.snapshot, Tok(under));
    assert FinalAnswer(cfg, past, c) == Failure(INVALID_GRANT, None, false);
    AfterReport(cfg, past, c, Tok(under));
    CondemnedIsPresented(cfg, past, c);
    hide Doing, Holds, GateOpen;
  }

  /** The first call of a fresh fleet whose sidecar is empty. */
  lemma FirstDoomed(who: nat, name: FamilyName, id: nat)
    ensures
      var w := Uninterrupted(EVERY, Fresh(NoSidecar), who, Doomed(name, id, id, 0));
      && Events(w.log, name, Tok(id)) == 1
      && PastOf(w, who).mem.lastAttempt == map[name := Attempt(0, false)]
      && name in PastOf(w, who).mem.dead && PastOf(w, who).mem.dead[name].token == Some(Tok(id))
      && (forall other :: other != who ==> PastOf(w, other) == Past(NO_MEMORY, []))
      && (forall t: nat :: MatchIn(w.sidecar, Tok(t)).Some? <==> t == id)
      && VerdictIn(PastOf(w, who).log, name, Tok(id))
  {
    var c := Doomed(name, id, id, 0);
    assert c.sidecar == NoSidecar && c.(sidecar := NoSidecar) == c && EVERY(who) == EVERY(0) && c.name == name;
    DoomedReports(Past(NO_MEMORY, []), NoSidecar, name, id, id, 0);
    hide Doing, ReportsDeath, Presents, Doomed, RefreshFamily, GateOpen, Perform, Events, VerdictIn, MatchIn;
    ReportHeard(EVERY(0), Past(NO_MEMORY, []), c, Tok(id));
    PerformIs(EVERY(0), Past(NO_MEMORY, []), c);
    var r := Doing(EVERY(0), Past(NO_MEMORY, []), c);
    assert [] + r.log == r.log;
  }

  lemma ReportHeard(cfg: Config, past: Past, c: CallOf, t: Token)
    requires ReportsDeath(cfg, past, c, t)
    ensures Events(Doing(cfg, past, c).log, c.name, t) == 1 && VerdictIn(Doing(cfg, past, c).log, c.name, t)
  {
    CallExactly(cfg, past, c);
    hide Doing, Presents, Condemns, Perform, MovedOn, Events, VerdictIn;
  }

  lemma PerformIs(cfg: Config, past: Past, c: CallOf)
    ensures Perform(cfg, past, c) == Past(Doing(cfg, past, c).mem, past.log + Doing(cfg, past, c).log)
  {
    hide RefreshFamily;
  }

  /** What a whole call that reports a token adds to the fleet's log and to its provider's. */
  lemma ReportingCall(cfgs: nat -> Config, w: Fleet, who: nat, call: CallOf, t: Token)
    requires ReportsDeath(cfgs(who), PastOf(w, who), call.(sidecar := w.sidecar), t)
    ensures
      var w' := Uninterrupted(cfgs, w, who, call);
      && Events(w'.log, call.name, t) == Events(w.log, call.name, t) + 1
      && (forall name, u :: name != call.name ==> Events(w'.log, name, u) == Events(w.log, name, u))
      && (VerdictIn(PastOf(w, who).log, call.name, t) ==> !NeverAgain(PastOf(w', who).log))
  {
    var past, c := PastOf(w, who), call.(sidecar := w.sidecar);
    CallExactly(cfgs(who), past, c);
    CondemnedIsPresented(cfgs(who), past, c);
    PerformIs(cfgs(who), past, c);
    hide Doing, Perform, Presents, Condemns, NeverAgain, MovedOn;
    var r := Doing(cfgs(who), past, c);
    EventsOfSum(w.log, r.log, call.name, t);
    NeverAgainAfterCall(past.log, r.log, call.name);
    forall name, u | name != call.name ensures Events(Uninterrupted(cfgs, w, who, call).log, name, u) == Events(w.log, name, u) {
      EventsOfSum(w.log, r.log, name, u);
      OtherNamesAreSilent(r.log, call.name, name, u);
    }
  }

  lemma DoomedIsCandid(name: FamilyName, id: nat, at: int)
    ensures forall t :: Candid(EVERY(0), Doomed(name, id, id, at), t)
  {
  }

  /**
   * One provider, working sidecar, no overlap. It hears and reports that token 10 is dead; its next call reads
   * token 11 without the lock and token 10 under it, presents token 10 and reports it again.
   */
  lemma DeadTokenGoesOutAgain()
    ensures
      var w := Run(EVERY, Fresh(NoSidecar), Whole(0, Doomed(Agent, 10, 10, 0)) + Whole(0, Doomed(Agent, 11, 10, 10_000)));
      !NeverAgain(PastOf(w, 0).log) && Events(w.log, Agent, Tok(10)) == 2
  {
    var m, n := Doomed(Agent, 10, 10, 0), Doomed(Agent, 11, 10, 10_000);
    var w := Uninterrupted(EVERY, Fresh(NoSidecar), 0, m);
    TwoWholeCalls(EVERY, Fresh(NoSidecar), 0, m, 0, n);
    FirstDoomed(0, Agent, 10);
    DoomedReports(PastOf(w, 0), w.sidecar, Agent, 11, 10, 10_000);
    ReportingCall(EVERY, w, 0, n, Tok(10));
    hide Doing, Uninterrupted, Run, ReportsDeath, NeverAgain;
  }

  /** No overlap: a second process with nothing in memory and the death on record does the same. */
  lemma RecordedTokenGoesOutAgain()
    ensures
      var first, second := Whole(0, Doomed(Agent, 10, 10, 0)), Whole(1, Doomed(Agent, 9, 10, 10_000));
      && MatchIn(Run(EVERY, Fresh(NoSidecar), first).sidecar, Tok(10)).Some?
      && Events(Run(EVERY, Fresh(NoSidecar), first + second).log, Agent, Tok(10)) == 2
  {
    var m, n := Doomed(Agent, 10, 10, 0), Doomed(Agent, 9, 10, 10_000);
    var w := Uninterrupted(EVERY, Fresh(NoSidecar), 0, m);
    WholeCall(EVERY, Fresh(NoSidecar), 0, m);
    TwoWholeCalls(EVERY, Fresh(NoSidecar), 0, m, 1, n);
    FirstDoomed(0, Agent, 10);
    DoomedReports(PastOf(w, 1), w.sidecar, Agent, 9, 10, 10_000);
    ReportingCall(EVERY, w, 1, n, Tok(10));
    hide Doing, Uninterrupted, Run, ReportsDeath;
  }

  /** No overlap: a candid call with another family's dead token takes the only slot, and nothing names token 10 any more. */
  lemma AnotherDeathTakesTheSlot()
    ensures
      var w := Run(EVERY, Fresh(NoSidecar), Whole(0, Doomed(Agent, 10, 10, 0)) + Whole(1, Doomed(Plugin, 20, 20, 0)));
      && Events(w.log, Agent, Tok(10)) == 1 && MatchIn(w.sidecar, Tok(10)).None?
      && PastOf(w, 2) == Past(NO_MEMORY, []) && w.running == map[]
  {
    var m, n := Doomed(Agent, 10, 10, 0), Doomed(Plugin, 20, 20, 0);
    var w := Uninterrupted(EVERY, Fresh(NoSidecar), 0, m);
    TwoWholeCalls(EVERY, Fresh(NoSidecar), 0, m, 1, n);
    FirstDoomed(0, Agent, 10);
    DoomedReports(PastOf(w, 1), w.sidecar, Plugin, 20, 20, 0);
    ReportingCall(EVERY, w, 1, n, Tok(20));
    hide Doing, Perform, Run, ReportsDeath;
  }

  /** Every call candid and none overlapping, but a second family died in between: a third process presents and reports token 10 again. */
  lemma TheSlotForgets()
    ensures
      var m, n, third := Doomed(Agent, 10, 10, 0), Doomed(Plugin, 20, 20, 0), Doomed(Agent, 10, 10, 10_000);
      && (forall t :: Candid(EVERY(0), m, t) && Candid(EVERY(1), n, t) && Candid(EVERY(2), third, t))
      && Events(Run(EVERY, Fresh(NoSidecar), Whole(0, m) + Whole(1, n) + Whole(2, third)).log, Agent, Tok(10)) == 2
  {
    var m, n, third := Doomed(Agent, 10, 10, 0), Doomed(Plugin, 20, 20, 0), Doomed(Agent, 10, 10, 10_000);
    var w := Run(EVERY, Fresh(NoSidecar), Whole(0, m) + Whole(1, n));
    AnotherDeathTakesTheSlot();
    DoomedIsCandid(Agent, 10, 0);
    DoomedIsCandid(Plugin, 20, 0);
    DoomedIsCandid(Agent, 10, 10_000);
    DoomedReports(PastOf(w, 2), w.sidecar, Agent, 10, 10, 10_000);
    hide Doing, Run, ReportsDeath, Candid, Doomed, Whole, Perform;
    ReportingCall(EVERY, w, 2, third, Tok(10));
    WholeCall(EVERY, w, 2, third);
    RunAppend(EVERY, Fresh(NoSidecar), Whole(0, m) + Whole(1, n), Whole(2, third));
  }

  /**
   * Every call candid, no other death, nobody slips: two processes that wake for the same token pass their gates
   * before either has heard the verdict. The first records the death; the second, under way, sends the token and
   * reports it all the same.
   */
  lemma OverlappingCallsBothReport()
    ensures
      var c := Doomed(Agent, 10, 10, 0);
      var gates := [Begins(0, c), Begins(1, c)];
      && (forall t :: Candid(EVERY(0), c, t) && Candid(EVERY(1), c, t))
      && MatchIn(Run(EVERY, Fresh(NoSidecar), gates + Rest(0)).sidecar, Tok(10)).Some?
      && Events(Run(EVERY, Fresh(NoSidecar), gates + Rest(0)).log, Agent, Tok(10)) == 1
      && Events(Run(EVERY, Fresh(NoSidecar), gates + Rest(0) + Rest(1)).log, Agent, Tok(10)) == 2
  {
    var c := Doomed(Agent, 10, 10, 0);
    var gates := [Begins(0, c), Begins(1, c)];
    var w := Fresh(NoSidecar);
    var begun := Run(EVERY, w, gates);
    BothBegin();
    DoomedIsCandid(Agent, 10, 0);
    DoomedOffers();
    hide Doomed, Candid, ReportsDeath, Run, Rest, Perform, Part, Offered, WithOffer, MatchIn, Events;
    FinishReports(EVERY, begun, 0, Tok(10));
    var one := Finished(EVERY, begun, 0);
    assert one.running[1].call == c && PastOf(one, 1) == Past(NO_MEMORY, []);
    FinishReports(EVERY, one, 1, Tok(10));
    BothFinish(EVERY, w, gates, 0, 1);
  }

  /** Two calls just past their gates, one finishing after the other. */
  lemma BothFinish(cfgs: nat -> Config, w: Fleet, gates: seq<Move>, a: nat, b: nat)
    requires a != b
    requires a in Run(cfgs, w, gates).running && Run(cfgs, w, gates).running[a].next == 1
    requires b in Run(cfgs, w, gates).running && Run(cfgs, w, gates).running[b].next == 1
    ensures Run(cfgs, w, gates + Rest(a)) == Finished(cfgs, Run(cfgs, w, gates), a)
    ensures Run(cfgs, w, gates + Rest(a) + Rest(b)) == Finished(cfgs, Finished(cfgs, Run(cfgs, w, gates), a), b)
  {
    var begun := Run(cfgs, w, gates);
    hide Run, Rest, Perform, Part, Offered, WithOffer;
    RunAppend(cfgs, w, gates, Rest(a));
    RunAppend(cfgs, w, gates + Rest(a), Rest(b));
    Finishes(cfgs, begun, a);
    Finishes(cfgs, Finished(cfgs, begun, a), b);
  }

  lemma BothBegin()
    ensures
      var c := Doomed(Agent, 10, 10, 0);
      var w := Run(EVERY, Fresh(NoSidecar), [Begins(0, c), Begins(1, c)]);
      && w.running == map[0 := Running(c, 1), 1 := Running(c, 1)] && w.pasts == map[] && w.sidecar == NoSidecar
      && Events(w.log, Agent, Tok(10)) == 0
  {
    var c := Doomed(Agent, 10, 10, 0);
    var w := Fresh(NoSidecar);
    assert c.(sidecar := NoSidecar) == c;
    RunAppend(EVERY, w, [Begins(0, c)], [Begins(1, c)]);
    assert [Begins(0, c)] + [Begins(1, c)] == [Begins(0, c), Begins(1, c)];
    RunOfOne(EVERY, w, Begins(0, c));
    var one := Moved(EVERY, w, Begins(0, c));
    RunOfOne(EVERY, one, Begins(1, c));
    MoveExactly(EVERY, w, Begins(0, c), Agent, Tok(10));
    MoveExactly(EVERY, one, Begins(1, c), Agent, Tok(10));
    hide Run, Part, Offered, Perform, Doomed;
    EventsOfSum(w.log, Added(EVERY, w, Begins(0, c)), Agent, Tok(10));
    EventsOfSum(one.log, Added(EVERY, one, Begins(1, c)), Agent, Tok(10));
  }

  lemma DoomedOffers()
    ensures
      var c, past := Doomed(Agent, 10, 10, 0), Past(NO_MEMORY, []);
      && c.name == Agent && ReportsDeath(EVERY(0), past, c, Tok(10))
      && MatchIn(WithOffer(NoSidecar, Offered(EVERY(0), past, c)), Tok(10)).Some?
  {
    var c, past := Doomed(Agent, 10, 10, 0), Past(NO_MEMORY, []);
    assert c.(sidecar := NoSidecar) == c && c.name == Agent;
    DoomedReports(past, NoSidecar, Agent, 10, 10, 0);
    DoomedIsRecorded();
    hide Doomed, ReportsDeath, Recorded, Doing, Offered, MatchIn, WithOffer;
    OfferIs(EVERY(0), past, c, NoSidecar, Tok(10));
  }

  lemma DoomedIsRecorded()
    ensures Recorded(EVERY(0), Past(NO_MEMORY, []), Doomed(Agent, 10, 10, 0))
  {
    var c, past := Doomed(Agent, 10, 10, 0), Past(NO_MEMORY, []);
    TrimOfTrimmed("c");
    assert Holds(EVERY(0), c.env.first, Agent, c.snapshot, Tok(10));
    HoldsExactly(EVERY(0), AfterGate(EVERY(0), past, c), c.env.first, Agent, c.snapshot, Tok(10));
    assert FinalAnswer(EVERY(0), past, c) == Failure(INVALID_GRANT, None, false);
  }
}
