/** What every run of the workload generator keeps, failed requests included. */
module MultiTurnInvariants {
  import opened Wrappers
  import opened Sums
  import opened MultiTurn

  // ---------- runs ----------

  /** The state `__init__` builds, given that the sampler returns as many prompts as it is asked for. */
  ghost predicate IsInit(s: State) {
    && s.sent == s.completed == s.shown == 0 && !s.admitted && !s.crashed
    && s.flight == [] && s.answers == [] && s.parked == [] && s.barrierRound == 0 && s.barrierDone == 0
    && s.cfg.perRound == seq(s.cfg.maxRounds, r => CountAbove(Totals(s.records), r))
    && (forall i :: 0 <= i < |s.records| ==>
          s.records[i].round == 0 && 1 <= s.records[i].total <= s.cfg.maxRounds)
    && |s.ready| == |s.records|
    && (forall i :: 0 <= i < |s.ready| ==>
          s.ready[i].client == i && s.ready[i].body.prompt == s.records[i].history)
    && |s.stock| == Max(Sum(FollowUps(s.records)), 1)
  }

  /** `states` is what the events `events` make of an initial state. */
  ghost predicate IsRun(states: seq<State>, events: seq<Event>) {
    && |states| == |events| + 1
    && IsInit(states[0])
    && forall k :: 0 <= k < |events| ==>
         Enabled(states[k], events[k]) && states[k + 1] == Apply(states[k], events[k])
  }

  // ---------- the invariant ----------

  /** How many entries of a queue belong to client `c`. */
  function Count<T>(items: seq<Item<T>>, c: nat): nat {
    if items == [] then 0
    else Count(items[..|items| - 1], c) + if items[|items| - 1].client == c then 1 else 0
  }

  /** How many requests of client `c` may still be sent, answered or released. */
  function Live(s: State, c: nat): nat {
    Count(s.ready, c) + Count(s.flight, c) + Count(s.answers, c) + Count(s.parked, c)
  }

  ghost predicate Unfinished(s: State, c: nat) {
    c < |s.records| && s.records[c].round < s.records[c].total
  }

  ghost predicate ConfigInv(s: State) {
    && s.cfg.perRound == seq(s.cfg.maxRounds, r => CountAbove(Totals(s.records), r))
    && forall i :: 0 <= i < |s.records| ==>
         s.records[i].round <= s.records[i].total && 1 <= s.records[i].total <= s.cfg.maxRounds
  }

  /** At most one live request per client, and only for clients with rounds left. */
  ghost predicate LiveInv(s: State) {
    && (forall c: nat :: Live(s, c) <= 1)
    && (forall c: nat :: Live(s, c) > 0 ==> Unfinished(s, c))
    && (!s.cfg.barrier ==> s.parked == [])
  }

  /** The parallelism bound, also between the sender's test and its pop. */
  ghost predicate FlowInv(s: State) {
    && s.sent - s.completed == |s.flight| + |s.answers|
    && s.sent - s.completed <= Max(s.cfg.maxParallel, 0)
    && (s.admitted ==> s.sent - s.completed < s.cfg.maxParallel)
  }

  /** Follow-up questions each client has used up. */
  function Used(records: seq<Record>): (t: seq<int>)
    ensures |t| == |records|
  {
    seq(|records|, i requires 0 <= i < |records| => Min(records[i].round, records[i].total - 1))
  }

  ghost predicate StockInv(s: State) {
    |s.stock| == Max(Sum(FollowUps(s.records)), 1) - Sum(Used(s.records))
  }

  ghost predicate PromptsAre(rs: seq<Request>, records: seq<Record>) {
    forall k :: 0 <= k < |rs| ==> rs[k].client < |records| && rs[k].body.prompt == records[rs[k].client].history
  }

  /** Every request that is still to be sent or in flight carries its client's whole history. */
  ghost predicate PromptInv(s: State) {
    PromptsAre(s.ready, s.records) && PromptsAre(s.flight, s.records) && PromptsAre(s.parked, s.records)
  }

  /** The clients that have completed round `r`. */
  ghost function Done(records: seq<Record>, r: int): set<nat> {
    set i: nat | i < |records| && records[i].round > r
  }

  /** The clients that take part in round `r`. */
  ghost function Members(records: seq<Record>, r: int): set<nat> {
    set i: nat | i < |records| && records[i].total > r
  }

  ghost predicate AllAtRound<T>(items: seq<Item<T>>, records: seq<Record>, r: int) {
    forall k :: 0 <= k < |items| ==> items[k].client < |records| && records[items[k].client].round == r
  }

  ghost predicate BarrierInv(s: State) {
    s.cfg.barrier ==>
      && (forall i :: 0 <= i < |s.records| ==>
            Min(s.barrierRound, s.records[i].total) <= s.records[i].round <= s.barrierRound + 1)
      && s.barrierDone == |Done(s.records, s.barrierRound)|
      && (s.barrierDone < |Members(s.records, s.barrierRound)| || |Members(s.records, s.barrierRound)| == 0)
      && AllAtRound(s.ready, s.records, s.barrierRound)
      && AllAtRound(s.flight, s.records, s.barrierRound)
      && AllAtRound(s.answers, s.records, s.barrierRound)
      && AllAtRound(s.parked, s.records, s.barrierRound + 1)
  }

  /** A client with rounds left and no live request: its last request failed. */
  ghost predicate Lost(s: State, c: nat) {
    Unfinished(s, c) && Live(s, c) == 0
  }

  /** How many answers of each client the progress bar can have counted. */
  ghost function Answered(s: State): (t: seq<int>)
    ensures |t| == |s.records|
  {
    seq(|s.records|, i requires 0 <= i < |s.records| =>
      s.records[i].round + Count(s.answers, i) + if Lost(s, i) then 1 else 0)
  }

  ghost predicate BarInv(s: State) {
    s.shown <= Sum(Answered(s))
  }

  ghost predicate AllButBarrier(s: State) {
    && !s.crashed && ConfigInv(s) && LiveInv(s) && FlowInv(s) && StockInv(s) && PromptInv(s) && BarInv(s)
  }

  ghost predicate Inv(s: State) {
    AllButBarrier(s) && BarrierInv(s)
  }

  // ---------- counting ----------

  lemma {:induction false} CountAboveIsCardinality(records: seq<Record>, r: int)
    ensures CountAbove(Totals(records), r) == |Members(records, r)|
  {
    if records == [] {
      assert Members(records, r) == {};
    } else {
      var last := |records| - 1;
      var front := records[..last];
      CountAboveIsCardinality(front, r);
      assert Totals(records) == Totals(front) + [records[last].total];
      CountAboveConcat(Totals(front), [records[last].total], r);
      if records[last].total > r {
        assert Members(records, r) == Members(front, r) + {last};
      } else {
        assert Members(records, r) == Members(front, r);
      }
    }
  }

  lemma {:induction false} CountAboveConcat(a: seq<int>, b: seq<int>, r: int)
    ensures CountAbove(a + b, r) == CountAbove(a, r) + CountAbove(b, r)
  {
    if a == [] {
      assert a + b == b;
    } else {
      assert (a + b)[1..] == a[1..] + b;
      CountAboveConcat(a[1..], b, r);
    }
  }

  function Capped(totals: seq<int>, m: int): (t: seq<int>)
    ensures |t| == |totals|
  {
    seq(|totals|, i requires 0 <= i < |totals| => Min(totals[i], m))
  }

  lemma {:induction false} CappedStep(totals: seq<int>, m: int)
    ensures Sum(Capped(totals, m + 1)) == Sum(Capped(totals, m)) + CountAbove(totals, m)
  {
    if totals != [] {
      CappedStep(totals[1..], m);
      assert Capped(totals, m + 1)[1..] == Capped(totals[1..], m + 1);
      assert Capped(totals, m)[1..] == Capped(totals[1..], m);
    }
  }

  lemma {:induction false} CappedZero(totals: seq<int>)
    requires forall i :: 0 <= i < |totals| ==> 0 <= totals[i]
    ensures Sum(Capped(totals, 0)) == 0
  {
    if totals != [] {
      CappedZero(totals[1..]);
      assert Capped(totals, 0)[1..] == Capped(totals[1..], 0);
    }
  }

  lemma {:induction false} RoundsAdd(totals: seq<int>, m: nat)
    requires forall i :: 0 <= i < |totals| ==> 0 <= totals[i]
    ensures Sum(seq(m, r => CountAbove(totals, r))) == Sum(Capped(totals, m))
  {
    if m == 0 {
      CappedZero(totals);
    } else {
      RoundsAdd(totals, m - 1);
      CappedStep(totals, m - 1);
      var before := seq(m - 1, r => CountAbove(totals, r));
      assert seq(m, r => CountAbove(totals, r)) == before + [CountAbove(totals, m - 1)];
      SumConcat(before, [CountAbove(totals, m - 1)]);
    }
  }

  /** Double counting: summed over the rounds, the participants are all the requests of the run. */
  lemma ParticipantsAddUp(totals: seq<int>, maxRounds: nat)
    requires forall i :: 0 <= i < |totals| ==> 0 <= totals[i] <= maxRounds
    ensures Sum(seq(maxRounds, r => CountAbove(totals, r))) == Sum(totals)
  {
    RoundsAdd(totals, maxRounds);
    assert Capped(totals, maxRounds) == totals;
  }
}
