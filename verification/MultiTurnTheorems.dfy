/** The main results about the workload generator, over whole runs. */
module MultiTurnTheorems {
  import opened Wrappers
  import opened Sums
  import opened MultiTurn
  import opened MultiTurnInvariants
  import opened MultiTurnSafety

  // ---------- safety in every run ----------

  /** Every client that has a round `r - 1` has completed it. */
  ghost predicate RoundOpen(s: State, r: int) {
    forall i :: 0 <= i < |s.records| && s.records[i].total >= r ==> s.records[i].round >= r
  }

  /**
   Barrier safety, failed requests or not: whatever is ready, in flight or answered belongs to a
   round that every participant of the round before has completed.
   */
  lemma BarrierSafety(states: seq<State>, events: seq<Event>, k: nat, client: nat)
    requires IsRun(states, events) && k < |states| && states[k].cfg.barrier
    requires Count(states[k].ready, client) + Count(states[k].flight, client) + Count(states[k].answers, client) > 0
    ensures client < |states[k].records| && RoundOpen(states[k], states[k].records[client].round)
  {
    var s := states[k];
    RunInv(states, events, k);
    CountRound(s.ready, s.records, s.barrierRound, client);
    CountRound(s.flight, s.records, s.barrierRound, client);
    CountRound(s.answers, s.records, s.barrierRound, client);
  }

  lemma {:induction false} CountRound<T>(items: seq<Item<T>>, records: seq<Record>, r: int, c: nat)
    requires AllAtRound(items, records, r)
    ensures Count(items, c) > 0 ==> c < |records| && records[c].round == r
  {
    if items != [] {
      CountRound(items[..|items| - 1], records, r, c);
    }
  }

  /** Bounded parallelism, one live request per client, and no handler fault, in every run. */
  lemma RunIsSafe(states: seq<State>, events: seq<Event>, k: nat)
    requires IsRun(states, events) && k < |states|
    ensures var s := states[k];
      && !s.crashed
      && s.sent - s.completed == |s.flight| + |s.answers| <= Max(s.cfg.maxParallel, 0)
      && (forall c: nat :: Live(s, c) <= 1)
      && (forall r :: r in s.ready || r in s.flight || r in s.parked ==>
            r.client < |s.records| && r.body.prompt == s.records[r.client].history)
  {
    RunInv(states, events, k);
  }

  /** The progress bar is full only once there is nothing left to send, release or wait for. */
  lemma FullBarMeansDone(states: seq<State>, events: seq<Event>, k: nat)
    requires IsRun(states, events) && k < |states|
    ensures var s := states[k];
      && s.shown <= Sum(Totals(s.records))
      && (s.shown == Sum(Totals(s.records)) ==> s.ready == [] && s.flight == [] && s.parked == [])
  {
    var s := states[k];
    RunInv(states, events, k);
    forall i | 0 <= i < |s.records| ensures Answered(s)[i] <= Totals(s.records)[i] {
      assert Live(s, i) <= 1;
    }
    SumPointwise(Answered(s), Totals(s.records));
    if s.shown == Sum(Totals(s.records)) {
      if s.ready != [] { CountMember(s.ready, 0); NotAnswered(s, s.ready[0].client); }
      if s.flight != [] { CountMember(s.flight, 0); NotAnswered(s, s.flight[0].client); }
      if s.parked != [] { CountMember(s.parked, 0); NotAnswered(s, s.parked[0].client); }
    }
  }

  lemma NotAnswered(s: State, c: nat)
    requires LiveInv(s) && Live(s, c) > Count(s.answers, c)
    ensures c < |s.records| && Answered(s)[c] < Totals(s.records)[c]
  {
    assert Unfinished(s, c) && Live(s, c) <= 1;
  }

  // ---------- failure-free runs ----------

  ghost predicate FailureFree(events: seq<Event>) {
    forall k :: 0 <= k < |events| && events[k].Reply? ==> events[k].response.success
  }

  function Rounds(records: seq<Record>): (t: seq<int>)
    ensures |t| == |records|
  {
    seq(|records|, i requires 0 <= i < |records| => records[i].round)
  }

  /** No answer reports a failure and no client has dropped out. */
  ghost predicate Healthy(s: State) {
    && (forall k :: 0 <= k < |s.answers| ==> s.answers[k].body.success)
    && (forall c: nat :: !Lost(s, c))
    && s.completed == Sum(Rounds(s.records))
  }

  lemma TallyStaysOneFurther(s: State, t: State, c: nat)
    requires OneFurther(s, t, c) && t.barrierRound < |t.cfg.perRound|
    ensures OneFurther(s, Tally(t), c)
  {
    forall x: nat ensures Live(Tally(t), x) == Live(t, x) {
      TallyKeepsLive(t, x);
    }
  }

  /** The handler turn on a successful answer, seen from the records and the counters. */
  lemma HandleSummary(s: State)
    requires Succeeds(s)
    ensures var t := HandleAnswer(s);
      && OneFurther(s, t, s.answers[0].client)
      && t.answers == s.answers[1..] && t.flight == s.flight && t.completed == s.completed + 1
  {
    AdvanceIsOneFurther(s);
    if s.cfg.barrier && s.barrierRound < s.cfg.maxRounds {
      TallyStaysOneFurther(s, Advance(s), s.answers[0].client);
    }
  }

  lemma OneFurtherHealthy(s: State, t: State, c: nat)
    requires LiveInv(s) && Healthy(s) && OneFurther(s, t, c) && s.answers != [] && Live(s, c) == 1
    requires t.answers == s.answers[1..] && t.completed == s.completed + 1
    ensures Healthy(t)
    ensures Sum(Rounds(t.records)) == Sum(Rounds(s.records)) + 1
    ensures Totals(t.records) == Totals(s.records)
  {
    assert Rounds(t.records) == Rounds(s.records)[c := s.records[c].round + 1];
    SumUpdate(Rounds(s.records), c, s.records[c].round + 1);
    forall x: nat ensures !Lost(t, x) {
      assert !Lost(s, x);
    }
    assert Totals(t.records) == Totals(s.records);
  }

  lemma HandleHealthy(s: State)
    requires Inv(s) && Healthy(s) && s.answers != []
    ensures var t := HandleAnswer(s);
      && Healthy(t) && Sum(Rounds(t.records)) == Sum(Rounds(s.records)) + 1
      && Totals(t.records) == Totals(s.records)
      && t.answers == s.answers[1..] && t.flight == s.flight && t.completed == s.completed + 1
  {
    NoFault(s);
    AnsweredAlone(s);
    HandleSummary(s);
    OneFurtherHealthy(s, HandleAnswer(s), s.answers[0].client);
  }

  lemma StepHealthy(s: State, e: Event)
    requires Inv(s) && Healthy(s) && Enabled(s, e) && (e.Reply? ==> e.response.success)
    ensures Healthy(Apply(s, e))
  {
    var t := Apply(s, e);
    if e.Handle? {
      HandleHealthy(s);
    } else {
      forall c: nat ensures !Lost(t, c) {
        assert !Lost(s, c);
        if e.Pop? { PopKeepsLive(s, e.index, c); }
        if e.Reply? { ReplyKeepsLive(s, e, c); }
      }
    }
  }

  lemma InitHealthy(s: State)
    requires IsInit(s)
    ensures Healthy(s)
  {
    SumZero(Rounds(s.records));
    forall c: nat ensures !Lost(s, c) { CountOfInit(s.ready, c); }
  }

  ghost predicate HealthyInv(s: State) {
    Inv(s) && Healthy(s)
  }

  lemma StartHealthy(s: State)
    requires IsInit(s)
    ensures HealthyInv(s)
  {
    InitInv(s);
    InitHealthy(s);
  }

  lemma NextHealthy(s: State, e: Event, t: State)
    requires HealthyInv(s) && Enabled(s, e) && t == Apply(s, e) && (e.Reply? ==> e.response.success)
    ensures HealthyInv(t)
  {
    StepInv(s, e);
    StepHealthy(s, e);
  }

  lemma RunStep(states: seq<State>, events: seq<Event>, k: nat)
    requires IsRun(states, events) && k < |events|
    ensures |states| == |events| + 1 && Enabled(states[k], events[k]) && states[k + 1] == Apply(states[k], events[k])
  {
  }

  lemma {:induction false} RunHealthy(states: seq<State>, events: seq<Event>, k: nat)
    requires IsRun(states, events) && k < |states| && FailureFree(events)
    ensures HealthyInv(states[k])
  {
    if k == 0 {
      StartHealthy(states[0]);
    } else {
      RunHealthy(states, events, k - 1);
      RunStep(states, events, k - 1);
      NextHealthy(states[k - 1], events[k - 1], states[k]);
    }
  }

  /** The barrier never parks every request: some client with rounds left can still move. */
  lemma SomethingMoves(s: State, c: nat)
    requires Inv(s) && Healthy(s) && Unfinished(s, c)
    ensures s.ready != [] || s.flight != [] || s.answers != []
  {
    if s.ready == [] && s.flight == [] && s.answers == [] {
      assert !Lost(s, c) && Live(s, c) == Count(s.parked, c) > 0;
      assert s.cfg.barrier;
      var b := s.barrierRound;
      CountRound(s.parked, s.records, b + 1, c);
      assert c in Members(s.records, b);
      forall i: nat | i in Members(s.records, b) ensures i in Done(s.records, b) {
        assert !Lost(s, i);
        if Unfinished(s, i) {
          CountRound(s.parked, s.records, b + 1, i);
        }
      }
      SubsetCardinality(Members(s.records, b), Done(s.records, b));
    }
  }

  predicate Productive(e: Event) {
    e.Pop? || e.Reply? || e.Handle?
  }

  /**
   Progress: while a client has rounds left, the network or the handler can move, or the sender
   can, at once or after its parallelism test.
   */
  lemma Progress(states: seq<State>, events: seq<Event>, k: nat, c: nat)
    requires IsRun(states, events) && k < |states| && FailureFree(events)
    requires states[k].cfg.maxParallel >= 1 && Unfinished(states[k], c)
    ensures var s := states[k];
      || (exists e :: Productive(e) && Enabled(s, e))
      || (Enabled(s, Admit) && Enabled(Apply(s, Admit), Pop(0)))
  {
    var s := states[k];
    RunHealthy(states, events, k);
    SomethingMoves(s, c);
    if s.answers != [] {
      assert Productive(Handle) && Enabled(s, Handle);
    } else if s.flight != [] {
      var e := Reply(0, Response(true, [], ""), true);
      assert Productive(e) && Enabled(s, e);
    } else if s.admitted {
      assert Productive(Pop(0)) && Enabled(s, Pop(0));
    }
  }

  // ---------- how long a failure-free run is ----------

  /** Three moves, send, reply and handle, for each round still to come. */
  function Fuel(s: State): int {
    3 * (Sum(Totals(s.records)) - Sum(Rounds(s.records))) - |s.flight| - 2 * |s.answers|
  }

  function Moves(events: seq<Event>): nat {
    if events == [] then 0 else Moves(events[..|events| - 1]) + One(Productive(events[|events| - 1]))
  }

  function Handled(events: seq<Event>): nat {
    if events == [] then 0 else Handled(events[..|events| - 1]) + One(events[|events| - 1].Handle?)
  }

  lemma StepFuel(s: State, e: Event)
    requires Inv(s) && Healthy(s) && Enabled(s, e) && (e.Reply? ==> e.response.success)
    ensures Fuel(Apply(s, e)) == Fuel(s) - One(Productive(e))
    ensures Totals(Apply(s, e).records) == Totals(s.records)
    ensures Apply(s, e).completed == s.completed + One(e.Handle?)
  {
    if e.Handle? {
      HandleHealthy(s);
    }
  }

  /** Every productive event burns one unit of fuel, and every handler turn completes one request. */
  lemma {:induction false} RunFuel(states: seq<State>, events: seq<Event>, k: nat)
    requires IsRun(states, events) && k < |states| && FailureFree(events)
    ensures Moves(events[..k]) + Fuel(states[k]) == 3 * Sum(Totals(states[0].records))
    ensures Totals(states[k].records) == Totals(states[0].records)
    ensures states[k].completed == Handled(events[..k])
  {
    if k == 0 {
      SumZero(Rounds(states[0].records));
    } else {
      RunFuel(states, events, k - 1);
      RunHealthy(states, events, k - 1);
      StepFuel(states[k - 1], events[k - 1]);
      assert events[..k][..k - 1] == events[..k - 1];
    }
  }

  function Counts<T>(items: seq<Item<T>>, n: nat): (t: seq<int>)
    ensures |t| == n
  {
    seq(n, c requires 0 <= c < n => Count(items, c))
  }

  lemma {:induction false} CountsAddUp<T>(items: seq<Item<T>>, n: nat)
    requires forall k :: 0 <= k < |items| ==> items[k].client < n
    ensures Sum(Counts(items, n)) == |items|
  {
    if items == [] {
      SumZero(Counts(items, n));
    } else {
      var front, c := items[..|items| - 1], items[|items| - 1].client;
      CountsAddUp(front, n);
      assert Counts(items, n) == Counts(front, n)[c := Count(front, c) + 1];
      SumUpdate(Counts(front, n), c, Count(front, c) + 1);
    }
  }

  lemma {:induction false} SumAdd(a: seq<int>, b: seq<int>, c: seq<int>)
    requires |a| == |b| == |c|
    requires forall i :: 0 <= i < |a| ==> a[i] + b[i] <= c[i]
    ensures Sum(a) + Sum(b) <= Sum(c)
  {
    if a != [] {
      SumAdd(a[1..], b[1..], c[1..]);
    }
  }

  lemma FuelSuffices(s: State)
    requires Inv(s)
    ensures Fuel(s) >= 0
  {
    var n := |s.records|;
    var left := seq(n, i requires 0 <= i < n => s.records[i].total - s.records[i].round);
    forall k | 0 <= k < |s.flight| ensures s.flight[k].client < n {
      CountMember(s.flight, k);
      assert Live(s, s.flight[k].client) > 0;
    }
    forall k | 0 <= k < |s.answers| ensures s.answers[k].client < n {
      CountMember(s.answers, k);
      assert Live(s, s.answers[k].client) > 0;
    }
    CountsAddUp(s.flight, n);
    CountsAddUp(s.answers, n);
    forall i | 0 <= i < n ensures Counts(s.flight, n)[i] + Counts(s.answers, n)[i] <= left[i] {
      assert Live(s, i) <= 1 && (Live(s, i) > 0 ==> Unfinished(s, i));
    }
    SumAdd(Counts(s.flight, n), Counts(s.answers, n), left);
    SumAdd(left, Rounds(s.records), Totals(s.records));
  }

  lemma NobodyInside<T>(items: seq<Item<T>>)
    requires forall c: nat :: Count(items, c) == 0
    ensures items == []
  {
    if items != [] {
      CountMember(items, 0);
    }
  }

  lemma FinishedIsEmpty(s: State)
    requires LiveInv(s) && forall c: nat :: !Unfinished(s, c)
    ensures s.ready == [] && s.flight == [] && s.answers == [] && s.parked == []
  {
    assert forall c: nat :: Live(s, c) == 0;
    assert forall c: nat ::
             Count(s.ready, c) + Count(s.flight, c) + Count(s.answers, c) + Count(s.parked, c) == Live(s, c);
    NobodyInside(s.ready);
    NobodyInside(s.flight);
    NobodyInside(s.answers);
    NobodyInside(s.parked);
  }

  lemma FinishedIffRoundsAddUp(s: State)
    requires ConfigInv(s)
    ensures (forall c: nat :: !Unfinished(s, c)) <==> Sum(Rounds(s.records)) == Sum(Totals(s.records))
  {
    SumPointwise(Rounds(s.records), Totals(s.records));
    if forall c: nat :: !Unfinished(s, c) {
      forall i: nat | i < |s.records| ensures Rounds(s.records)[i] == Totals(s.records)[i] {
        assert !Unfinished(s, i);
      }
      assert Rounds(s.records) == Totals(s.records);
    }
    if Rounds(s.records) == Totals(s.records) {
      forall c: nat ensures !Unfinished(s, c) {
        if c < |s.records| { assert Rounds(s.records)[c] == Totals(s.records)[c]; }
      }
    }
  }

  /**
   A failure-free run makes at most three moves per request, and it has brought every client
   to its last round exactly when `total_requests` responses have been handled; then nothing is left.
   */
  lemma FailureFreeRunCompletes(states: seq<State>, events: seq<Event>, k: nat)
    requires IsRun(states, events) && k < |states| && FailureFree(events)
    ensures Moves(events[..k]) <= 3 * Sum(Totals(states[0].records))
    ensures (forall c: nat :: !Unfinished(states[k], c)) <==> Handled(events[..k]) == Sum(Totals(states[0].records))
    ensures (forall c: nat :: !Unfinished(states[k], c)) ==>
              && states[k].sent == states[k].completed == Sum(Totals(states[0].records))
              && states[k].ready == [] && states[k].parked == []
  {
    RunHealthy(states, events, k);
    RunFuel(states, events, k);
    FuelSuffices(states[k]);
    FinishedIffRoundsAddUp(states[k]);
    if forall c: nat :: !Unfinished(states[k], c) {
      FinishedIsEmpty(states[k]);
    }
  }

  // ---------- runs with failures ----------

  /** In barrier mode a client can only drop out of the round the barrier is waiting for. */
  ghost predicate LostAtBarrier(s: State) {
    s.cfg.barrier ==> forall c: nat :: Lost(s, c) ==> s.records[c].round == s.barrierRound
  }

  lemma SuccessKeepsLost(s: State, c: nat)
    requires Inv(s) && Succeeds(s) && Lost(s, c)
    ensures Lost(HandleAnswer(s), c) && HandleAnswer(s).records[c] == s.records[c]
  {
    AnsweredAlone(s);
    HandleSummary(s);
  }

  lemma SuccessCreatesNoLost(s: State, c: nat)
    requires Inv(s) && Succeeds(s) && Lost(HandleAnswer(s), c)
    ensures Lost(s, c) && HandleAnswer(s).records[c] == s.records[c]
  {
    AnsweredAlone(s);
    HandleSummary(s);
  }

  lemma OtherKeepsLost(s: State, e: Event, c: nat)
    requires Inv(s) && Enabled(s, e) && !e.Handle?
    ensures Lost(Apply(s, e), c) == Lost(s, c) && Apply(s, e).records == s.records
    ensures Apply(s, e).barrierRound == s.barrierRound && Apply(s, e).cfg == s.cfg
  {
    if e.Pop? { PopKeepsLive(s, e.index, c); }
    if e.Reply? { ReplyKeepsLive(s, e, c); }
  }

  lemma FailKeepsLost(s: State, c: nat)
    requires Inv(s) && s.answers != [] && !s.answers[0].body.success
    ensures var t := HandleAnswer(s);
      && Lost(t, c) == (Lost(s, c) || c == s.answers[0].client)
      && t.records == s.records && t.barrierRound == s.barrierRound && t.cfg == s.cfg
  {
    AnsweredAlone(s);
    CountPop(s.answers, c);
  }

  /** With two members of the waiting round not done, one completion does not fill the round. */
  lemma CountStaysShort(s: State, t: State, a: nat, c: nat)
    requires ConfigInv(s) && BarrierInv(s) && s.cfg.barrier && OneFurther(s, t, a)
    requires s.records[a].round == s.barrierRound < s.records[a].total
    requires c < |s.records| && c != a && s.records[c].round == s.barrierRound < s.records[c].total
    ensures s.barrierRound < |s.cfg.perRound| && s.barrierDone + 1 != s.cfg.perRound[s.barrierRound]
  {
    var b := s.barrierRound;
    DoneGrows(s, t, a, b);
    CountAboveIsCardinality(s.records, b);
    assert c in Members(t.records, b) && c !in Done(t.records, b);
  }

  /** A count that does not fill the round leaves the barrier where it is. */
  lemma TallyWaits(s: State)
    requires Succeeds(s) && s.barrierRound < |s.cfg.perRound| && s.barrierDone + 1 != s.cfg.perRound[s.barrierRound]
    ensures HandleAnswer(s).barrierRound == s.barrierRound
  {
  }

  lemma LostIsNotAnswered(s: State, c: nat)
    requires LiveInv(s) && s.answers != [] && Lost(s, c)
    ensures c != s.answers[0].client && Unfinished(s, s.answers[0].client)
  {
    AnsweredAlone(s);
  }

  /** A lost client is a member of the waiting round that is not done, so the round stays open. */
  lemma SuccessStalls(s: State, c: nat)
    requires Inv(s) && LostAtBarrier(s) && Succeeds(s) && s.cfg.barrier && Lost(s, c)
    ensures HandleAnswer(s).barrierRound == s.barrierRound
  {
    assert s.barrierRound < |s.cfg.perRound| && s.barrierDone + 1 != s.cfg.perRound[s.barrierRound] by {
      LostIsNotAnswered(s, c);
      AnswerAtBarrier(s);
      AdvanceIsOneFurther(s);
      CountStaysShort(s, Advance(s), s.answers[0].client, c);
    }
    TallyWaits(s);
  }

  lemma StepLost(s: State, e: Event, c: nat)
    requires Inv(s) && LostAtBarrier(s) && Enabled(s, e) && Lost(s, c)
    ensures Lost(Apply(s, e), c) && Apply(s, e).records[c] == s.records[c]
    ensures s.cfg.barrier ==> Apply(s, e).barrierRound == s.barrierRound
  {
    if !e.Handle? {
      OtherKeepsLost(s, e, c);
    } else if s.answers[0].body.success {
      NoFault(s);
      SuccessKeepsLost(s, c);
      if s.cfg.barrier { SuccessStalls(s, c); }
    } else {
      FailKeepsLost(s, c);
    }
  }

  lemma StepLostAtBarrier(s: State, e: Event)
    requires Inv(s) && LostAtBarrier(s) && Enabled(s, e)
    ensures LostAtBarrier(Apply(s, e))
  {
    var t := Apply(s, e);
    if t.cfg.barrier {
      forall c: nat | Lost(t, c) ensures t.records[c].round == t.barrierRound {
        if !e.Handle? {
          OtherKeepsLost(s, e, c);
        } else if s.answers[0].body.success {
          NoFault(s);
          SuccessCreatesNoLost(s, c);
          SuccessStalls(s, c);
        } else {
          FailKeepsLost(s, c);
          AnsweredAlone(s);
        }
      }
    }
  }

  ghost predicate LostInv(s: State) {
    Inv(s) && LostAtBarrier(s)
  }

  lemma StartLost(s: State)
    requires IsInit(s)
    ensures LostInv(s)
  {
    StartHealthy(s);
  }

  lemma NextLost(s: State, e: Event, t: State)
    requires LostInv(s) && Enabled(s, e) && t == Apply(s, e)
    ensures LostInv(t)
  {
    StepInv(s, e);
    StepLostAtBarrier(s, e);
  }

  lemma {:induction false} RunLostAtBarrier(states: seq<State>, events: seq<Event>, k: nat)
    requires IsRun(states, events) && k < |states|
    ensures LostInv(states[k])
  {
    if k == 0 {
      StartLost(states[0]);
    } else {
      RunLostAtBarrier(states, events, k - 1);
      RunStep(states, events, k - 1);
      NextLost(states[k - 1], events[k - 1], states[k]);
    }
  }

  /**
   Why progress is claimed for failure-free runs only: once a failed answer has been handled, its
   client never finishes and the barrier never again opens a round.
   */
  lemma {:induction false} FailureStallsTheBarrier(states: seq<State>, events: seq<Event>, j: nat, k: nat, c: nat)
    requires IsRun(states, events) && j <= k < |states| && Lost(states[j], c)
    ensures Lost(states[k], c) && states[k].records[c] == states[j].records[c]
    ensures states[j].cfg.barrier ==>
              states[k].cfg.barrier && states[k].barrierRound == states[j].barrierRound
    decreases k - j
  {
    if j < k {
      RunLostAtBarrier(states, events, j);
      StepLost(states[j], events[j], c);
      ConfigStays(states[j], events[j]);
      FailureStallsTheBarrier(states, events, j + 1, k, c);
    }
  }

  lemma ConfigStays(s: State, e: Event)
    requires Enabled(s, e)
    ensures Apply(s, e).cfg == s.cfg
  {
  }

  // ---------- prompts ----------

  /** The handler turn at state `s` is a success of client `c`. */
  ghost predicate Hears(s: State, e: Event, c: nat) {
    e.Handle? && s.answers != [] && s.answers[0].client == c && s.answers[0].body.success
  }

  lemma StepHistory(s: State, e: Event, c: nat)
    requires Inv(s) && Enabled(s, e) && c < |s.records|
    ensures |Apply(s, e).records| == |s.records|
    ensures !Hears(s, e, c) ==> Apply(s, e).records[c] == s.records[c]
  {
    if e.Handle? && s.answers[0].body.success {
      NoFault(s);
      HandleSummary(s);
    }
  }

  lemma {:induction false} HistoryFrozen(states: seq<State>, events: seq<Event>, j: nat, k: nat, c: nat)
    requires IsRun(states, events) && j <= k < |states| && c < |states[j].records|
    requires forall i :: j <= i < k ==> !Hears(states[i], events[i], c)
    ensures c < |states[k].records| && states[k].records[c] == states[j].records[c]
    decreases k - j
  {
    if j < k {
      RunInv(states, events, j);
      StepHistory(states[j], events[j], c);
      HistoryFrozen(states, events, j + 1, k, c);
    }
  }

  /**
   Each new prompt extends the client's previous prompt followed by its output: if a request of `c`
   with prompt `p` is in flight at `j` and the next success of `c` is handled at `k`, the
   history of `c`, and with it the prompt of any request of `c` after that turn, is `p`, then what
   was heard, then the follow-up question taken from the stock if rounds are left, and a request
   with that prompt and the output length of that question waits in a queue.
   */
  lemma PromptExtends(states: seq<State>, events: seq<Event>, j: nat, k: nat, r: Request)
    requires IsRun(states, events) && j <= k < |events| && r in states[j].flight
    requires forall i :: j <= i < k ==> !Hears(states[i], events[i], r.client)
    requires Hears(states[k], events[k], r.client)
    ensures var s, t := states[k], states[k + 1];
      && r.client < |s.records| == |t.records|
      && var heard := r.body.prompt + Said(s.cfg.format, s.answers[0].body);
         if s.records[r.client].round + 1 < s.records[r.client].total
         then s.stock != [] && t.records[r.client].history == heard + Ask(s.cfg.format, s.stock[|s.stock| - 1])
         else t.records[r.client].history == heard
    ensures forall q :: q in states[k + 1].ready + states[k + 1].parked && q.client == r.client ==>
              q.body.prompt == states[k + 1].records[r.client].history
    ensures var s, t := states[k], states[k + 1];
      s.records[r.client].round + 1 < s.records[r.client].total ==>
        Item(r.client, Payload(t.records[r.client].history, s.stock[|s.stock| - 1].outputLen)) in t.ready + t.parked
  {
    FlightHistory(states, events, j, r);
    HistoryFrozen(states, events, j, k, r.client);
    HeardInRun(states, events, k);
    QueuedHistory(states, events, k + 1);
  }

  lemma FlightHistory(states: seq<State>, events: seq<Event>, j: nat, r: Request)
    requires IsRun(states, events) && j < |states| && r in states[j].flight
    ensures r.client < |states[j].records| && r.body.prompt == states[j].records[r.client].history
  {
    RunInv(states, events, j);
  }

  lemma QueuedHistory(states: seq<State>, events: seq<Event>, k: nat)
    requires IsRun(states, events) && k < |states|
    ensures forall q :: q in states[k].ready + states[k].parked ==>
              q.client < |states[k].records| && q.body.prompt == states[k].records[q.client].history
  {
    RunInv(states, events, k);
  }

  /** One successful handler turn, as its client's history and queues see it. */
  ghost predicate TurnOf(s: State, t: State)
    requires s.answers != []
  {
    var c := s.answers[0].client;
    && c < |s.records| == |t.records|
    && var heard := s.records[c].history + Said(s.cfg.format, s.answers[0].body);
       if s.records[c].round + 1 < s.records[c].total
       then
         && s.stock != [] && t.records[c].history == heard + Ask(s.cfg.format, s.stock[|s.stock| - 1])
         && Item(c, Payload(t.records[c].history, s.stock[|s.stock| - 1].outputLen)) in t.ready + t.parked
       else t.records[c].history == heard
  }

  lemma HeardInRun(states: seq<State>, events: seq<Event>, k: nat)
    requires IsRun(states, events) && k < |events| && events[k].Handle?
    requires states[k].answers != [] && states[k].answers[0].body.success
    ensures TurnOf(states[k], states[k + 1])
  {
    RunInv(states, events, k);
    RunStep(states, events, k);
    HeardTurn(states[k]);
  }

  lemma HeardTurn(s: State)
    requires Inv(s) && s.answers != [] && s.answers[0].body.success
    ensures TurnOf(s, HandleAnswer(s))
  {
    NoFault(s);
    AdvanceRecord(s);
    var c := s.answers[0].client;
    if s.records[c].round + 1 < s.records[c].total { AdvanceQueues(s); }
  }

  lemma AdvanceRecord(s: State)
    requires Succeeds(s)
    ensures HandleAnswer(s).records == Advance(s).records
  {
  }

  lemma AdvanceQueues(s: State)
    requires Succeeds(s)
    requires var r := s.records[s.answers[0].client]; r.round + 1 < r.total
    ensures var c, t := s.answers[0].client, HandleAnswer(s);
      Item(c, Payload(t.records[c].history, s.stock[|s.stock| - 1].outputLen)) in t.ready + t.parked
  {
    var c, t := s.answers[0].client, Advance(s);
    var req := Item(c, Payload(t.records[c].history, s.stock[|s.stock| - 1].outputLen));
    assert req in t.ready || req in t.parked by {
      if s.cfg.barrier { assert t.parked == s.parked + [req]; } else { assert t.ready == s.ready + [req]; }
    }
  }
}
