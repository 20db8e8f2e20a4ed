/** The invariant holds initially and every event keeps it, so it holds in every state of every run. */
module MultiTurnSafety {
  import opened Wrappers
  import opened Sums
  import opened MultiTurn
  import opened MultiTurnInvariants

  // ---------- how the live requests move ----------

  lemma {:induction false} CountConcat<T>(a: seq<Item<T>>, b: seq<Item<T>>, c: nat)
    ensures Count(a + b, c) == Count(a, c) + Count(b, c)
  {
    if b == [] {
      assert a + b == a;
    } else {
      assert (a + b)[..|a + b| - 1] == a + b[..|b| - 1];
      CountConcat(a, b[..|b| - 1], c);
    }
  }

  lemma CountPush<T>(a: seq<Item<T>>, x: Item<T>, c: nat)
    ensures Count(a + [x], c) == Count(a, c) + One(x.client == c)
  {
    assert (a + [x])[..|a|] == a;
  }

  lemma {:induction false} CountRemove<T>(a: seq<Item<T>>, k: nat, c: nat)
    requires k < |a|
    ensures Count(a, c) == Count(RemoveAt(a, k), c) + One(a[k].client == c)
  {
    var n := |a| - 1;
    if k == n {
      assert RemoveAt(a, k) == a[..n];
    } else {
      CountRemove(a[..n], k, c);
      assert RemoveAt(a, k)[..n - 1] == RemoveAt(a[..n], k);
    }
  }

  lemma CountMember<T>(items: seq<Item<T>>, k: nat)
    requires k < |items|
    ensures Count(items, items[k].client) > 0
  {
    CountRemove(items, k, items[k].client);
  }

  lemma CountPop<T>(a: seq<Item<T>>, c: nat)
    requires a != []
    ensures Count(a, c) == Count(a[1..], c) + One(a[0].client == c)
  {
    CountRemove(a, 0, c);
    assert RemoveAt(a, 0) == a[1..];
  }

  lemma PopKeepsLive(s: State, k: nat, c: nat)
    requires Enabled(s, Pop(k))
    ensures Live(Apply(s, Pop(k)), c) == Live(s, c)
  {
    CountRemove(s.ready, k, c);
    CountPush(s.flight, s.ready[k], c);
  }

  /** A task that ends moves one entry of its client from the tasks to the answers. */
  lemma MovesToAnswers(flight: seq<Request>, answers: seq<Item<Response>>, k: nat, response: Response, c: nat)
    requires k < |flight|
    ensures Count(RemoveAt(flight, k), c) == Count(flight, c) - One(flight[k].client == c)
    ensures Count(answers + [Item(flight[k].client, response)], c) == Count(answers, c) + One(flight[k].client == c)
  {
    CountRemove(flight, k, c);
    CountPush(answers, Item(flight[k].client, response), c);
  }

  lemma ReplyKeepsLive(s: State, e: Event, c: nat)
    requires e.Reply? && Enabled(s, e)
    ensures Live(Apply(s, e), c) == Live(s, c)
    ensures Count(Apply(s, e).answers, c) == Count(s.answers, c) + One(s.flight[e.task].client == c)
  {
    ReplyMoves(s, e);
    MovesToAnswers(s.flight, s.answers, e.task, e.response, c);
  }

  lemma ReplyMoves(s: State, e: Event)
    requires e.Reply? && Enabled(s, e)
    ensures Apply(s, e).ready == s.ready && Apply(s, e).parked == s.parked
    ensures Apply(s, e).flight == RemoveAt(s.flight, e.task)
    ensures Apply(s, e).answers == s.answers + [Item(s.flight[e.task].client, e.response)]
  {
  }

  ghost predicate Succeeds(s: State) {
    s.answers != [] && s.answers[0].body.success && !Faults(s)
  }

  ghost predicate Continues(s: State)
    requires Succeeds(s)
  {
    var r := s.records[s.answers[0].client];
    r.round + 1 < r.total
  }

  lemma AdvanceMovesLive(s: State, c: nat)
    requires Succeeds(s)
    ensures Live(Advance(s), c) == Live(s, c) - One(s.answers[0].client == c && !Continues(s))
    ensures Count(Advance(s).answers, c) == Count(s.answers, c) - One(s.answers[0].client == c)
  {
    CountPop(s.answers, c);
    var a := s.answers[0].client;
    var t := Advance(s);
    if Continues(s) {
      var req := Item(a, Payload(t.records[a].history, s.stock[|s.stock| - 1].outputLen));
      CountPush(s.ready, req, c);
      CountPush(s.parked, req, c);
    }
  }

  lemma TallyKeepsLive(s: State, c: nat)
    requires s.barrierRound < |s.cfg.perRound|
    ensures Live(Tally(s), c) == Live(s, c)
  {
    CountConcat(s.ready, s.parked, c);
  }

  // ---------- initially ----------

  lemma {:induction false} CountOfInit(ready: seq<Request>, c: nat)
    requires forall i :: 0 <= i < |ready| ==> ready[i].client == i
    ensures Count(ready, c) == One(c < |ready|)
  {
    if ready != [] {
      CountOfInit(ready[..|ready| - 1], c);
    }
  }

  lemma InitBarrier(s: State)
    requires IsInit(s)
    ensures BarrierInv(s)
  {
    assert Done(s.records, 0) == {};
  }

  lemma InitInv(s: State)
    requires IsInit(s)
    ensures Inv(s)
  {
    forall c: nat ensures Live(s, c) == One(c < |s.records|) {
      CountOfInit(s.ready, c);
    }
    SumZero(Used(s.records));
    SumZero(Answered(s));
    InitBarrier(s);
  }

  // ---------- the sender and the network ----------

  lemma LiveFrame(s: State, t: State)
    requires LiveInv(s) && (forall c: nat :: Live(t, c) == Live(s, c))
    requires t.records == s.records && t.cfg == s.cfg && t.parked == s.parked
    ensures LiveInv(t)
  {
    assert forall c: nat :: Unfinished(t, c) == Unfinished(s, c);
  }

  lemma IdleInv(s: State, e: Event)
    requires Inv(s) && (e.Admit? || e.PopEmpty?) && Enabled(s, e)
    ensures Inv(Apply(s, e))
  {
    var t := Apply(s, e);
    LiveFrame(s, t);
    assert Answered(t) == Answered(s);
  }

  lemma PopLive(s: State, k: nat)
    requires LiveInv(s) && BarInv(s) && Enabled(s, Pop(k))
    ensures LiveInv(Apply(s, Pop(k))) && BarInv(Apply(s, Pop(k)))
  {
    var t := Apply(s, Pop(k));
    forall c: nat ensures Live(t, c) == Live(s, c) {
      PopKeepsLive(s, k, c);
    }
    LiveFrame(s, t);
    assert Answered(t) == Answered(s);
  }

  lemma PopBarrier(s: State, k: nat)
    requires BarrierInv(s) && PromptInv(s) && Enabled(s, Pop(k))
    ensures BarrierInv(Apply(s, Pop(k))) && PromptInv(Apply(s, Pop(k)))
  {
    assert forall j :: 0 <= j < |s.ready| - 1 ==> RemoveAt(s.ready, k)[j] == s.ready[if j < k then j else j + 1];
  }

  lemma PopInv(s: State, k: nat)
    requires Inv(s) && Enabled(s, Pop(k))
    ensures Inv(Apply(s, Pop(k)))
  {
    PopLive(s, k);
    PopBarrier(s, k);
  }

  lemma AnsweredOnce(s: State, t: State, c: nat)
    requires c < |s.records| && t.records == s.records
    requires forall x: nat :: Live(t, x) == Live(s, x)
    requires forall x: nat :: Count(t.answers, x) == Count(s.answers, x) + One(x == c)
    ensures Answered(t) == Answered(s)[c := Answered(s)[c] + 1]
  {
    forall i: nat | i < |s.records| ensures Answered(t)[i] == Answered(s)[i] + One(i == c) {
      assert Lost(t, i) == Lost(s, i);
    }
  }

  lemma ReplyFacts(s: State, e: Event)
    requires e.Reply? && Enabled(s, e)
    ensures forall x: nat :: Live(Apply(s, e), x) == Live(s, x)
    ensures forall x: nat ::
              Count(Apply(s, e).answers, x) == Count(s.answers, x) + One(x == s.flight[e.task].client)
    ensures Live(s, s.flight[e.task].client) > 0
  {
    forall x: nat
      ensures Live(Apply(s, e), x) == Live(s, x)
      ensures Count(Apply(s, e).answers, x) == Count(s.answers, x) + One(x == s.flight[e.task].client)
    {
      ReplyKeepsLive(s, e, x);
    }
    CountMember(s.flight, e.task);
  }

  lemma ReplyLive(s: State, e: Event)
    requires e.Reply? && LiveInv(s) && Enabled(s, e)
    ensures LiveInv(Apply(s, e))
    ensures var c := s.flight[e.task].client;
      Unfinished(s, c) && Answered(Apply(s, e)) == Answered(s)[c := Answered(s)[c] + 1]
  {
    ReplyFacts(s, e);
    LiveFrame(s, Apply(s, e));
    AnsweredOnce(s, Apply(s, e), s.flight[e.task].client);
  }

  lemma ReplyBarrier(s: State, e: Event)
    requires e.Reply? && BarrierInv(s) && PromptInv(s) && Enabled(s, e)
    ensures BarrierInv(Apply(s, e)) && PromptInv(Apply(s, e))
  {
    assert forall j :: 0 <= j < |s.flight| - 1 ==>
             RemoveAt(s.flight, e.task)[j] == s.flight[if j < e.task then j else j + 1];
  }

  lemma ReplyInv(s: State, e: Event)
    requires e.Reply? && Inv(s) && Enabled(s, e)
    ensures Inv(Apply(s, e))
  {
    ReplyLive(s, e);
    ReplyBarrier(s, e);
    ReplyCounts(s, e);
  }

  lemma ReplyCounts(s: State, e: Event)
    requires e.Reply? && Enabled(s, e) && ConfigInv(s) && FlowInv(s) && StockInv(s) && BarInv(s)
    requires var c := s.flight[e.task].client;
      c < |s.records| && Answered(Apply(s, e)) == Answered(s)[c := Answered(s)[c] + 1]
    ensures var t := Apply(s, e); ConfigInv(t) && FlowInv(t) && StockInv(t) && BarInv(t)
  {
    var c := s.flight[e.task].client;
    SumUpdate(Answered(s), c, Answered(s)[c] + 1);
  }

  // ---------- the response handler ----------

  /** The client whose answer is handled has no other live request. */
  lemma AnsweredAlone(s: State)
    requires LiveInv(s) && s.answers != []
    ensures var c := s.answers[0].client;
      && Unfinished(s, c) && Live(s, c) == 1
      && (forall k :: 0 <= k < |s.ready| ==> s.ready[k].client != c)
      && (forall k :: 0 <= k < |s.flight| ==> s.flight[k].client != c)
      && (forall k :: 0 <= k < |s.parked| ==> s.parked[k].client != c)
      && (forall k :: 0 < k < |s.answers| ==> s.answers[k].client != c)
  {
    var c := s.answers[0].client;
    CountPop(s.answers, c);
    assert Live(s, c) <= 1;
    forall k | 0 <= k < |s.ready| ensures s.ready[k].client != c { CountMember(s.ready, k); }
    forall k | 0 <= k < |s.flight| ensures s.flight[k].client != c { CountMember(s.flight, k); }
    forall k | 0 <= k < |s.parked| ensures s.parked[k].client != c { CountMember(s.parked, k); }
    forall k | 0 < k < |s.answers| ensures s.answers[k].client != c {
      CountMember(s.answers[1..], k - 1);
    }
  }

  lemma FailLive(s: State)
    requires LiveInv(s) && BarInv(s) && s.answers != [] && !s.answers[0].body.success
    ensures LiveInv(HandleAnswer(s)) && BarInv(HandleAnswer(s))
    ensures Lost(HandleAnswer(s), s.answers[0].client)
  {
    var t := HandleAnswer(s);
    var c := s.answers[0].client;
    AnsweredAlone(s);
    forall x: nat
      ensures Live(t, x) == Live(s, x) - One(x == c) && Count(t.answers, x) == Count(s.answers, x) - One(x == c)
      ensures Unfinished(t, x) == Unfinished(s, x)
    {
      CountPop(s.answers, x);
    }
    assert Answered(t) == Answered(s);
  }

  lemma FailInv(s: State)
    requires Inv(s) && s.answers != [] && !s.answers[0].body.success
    ensures Inv(HandleAnswer(s))
  {
    FailLive(s);
  }

  lemma UsedBelow(records: seq<Record>)
    requires forall i :: 0 <= i < |records| ==> records[i].total >= 1
    ensures Sum(Used(records)) <= Sum(FollowUps(records))
    ensures Sum(Used(records)) == Sum(FollowUps(records)) ==> Used(records) == FollowUps(records)
  {
    SumPointwise(Used(records), FollowUps(records));
  }

  /** No lookup of the handler fails; in particular a follow-up question is always in stock. */
  lemma NoFault(s: State)
    requires Inv(s) && s.answers != []
    ensures !Faults(s)
  {
    var c := s.answers[0].client;
    AnsweredAlone(s);
    UsedBelow(s.records);
    if s.records[c].round + 1 < s.records[c].total {
      assert Used(s.records)[c] < FollowUps(s.records)[c];
    }
  }

  lemma AdvanceConfig(s: State)
    requires LiveInv(s) && ConfigInv(s) && Succeeds(s)
    ensures ConfigInv(Advance(s))
    ensures Totals(Advance(s).records) == Totals(s.records)
    ensures FollowUps(Advance(s).records) == FollowUps(s.records)
  {
    AnsweredAlone(s);
    assert Totals(Advance(s).records) == Totals(s.records);
    assert FollowUps(Advance(s).records) == FollowUps(s.records);
  }

  lemma AdvanceStock(s: State)
    requires LiveInv(s) && ConfigInv(s) && StockInv(s) && Succeeds(s)
    ensures StockInv(Advance(s))
  {
    var t := Advance(s);
    var c := s.answers[0].client;
    AnsweredAlone(s);
    AdvanceConfig(s);
    var used := Min(t.records[c].round, t.records[c].total - 1);
    assert Used(t.records) == Used(s.records)[c := used];
    SumUpdate(Used(s.records), c, used);
  }

  /** `t` is `s` with client `c` one round further and, unless it goes on, no longer live. */
  ghost predicate OneFurther(s: State, t: State, c: nat) {
    && c < |s.records| == |t.records| && t.cfg == s.cfg
    && (forall x: nat :: x < |s.records| && x != c ==> t.records[x] == s.records[x])
    && t.records[c].round == s.records[c].round + 1 && t.records[c].total == s.records[c].total
    && (forall x: nat :: Live(t, x) == Live(s, x) - One(x == c && t.records[c].round >= t.records[c].total))
    && (forall x: nat :: Count(t.answers, x) == Count(s.answers, x) - One(x == c))
  }

  lemma AdvanceIsOneFurther(s: State)
    requires Succeeds(s)
    ensures OneFurther(s, Advance(s), s.answers[0].client)
    ensures !s.cfg.barrier && s.parked == [] ==> Advance(s).parked == []
  {
    forall x: nat
      ensures Live(Advance(s), x) == Live(s, x) - One(x == s.answers[0].client && !Continues(s))
      ensures Count(Advance(s).answers, x) == Count(s.answers, x) - One(x == s.answers[0].client)
    {
      AdvanceMovesLive(s, x);
    }
  }

  lemma OneFurtherLive(s: State, t: State, c: nat)
    requires LiveInv(s) && OneFurther(s, t, c) && Live(s, c) == 1 && Unfinished(s, c)
    requires !t.cfg.barrier ==> t.parked == []
    ensures LiveInv(t)
  {
    forall x: nat ensures Live(t, x) <= 1 && (Live(t, x) > 0 ==> Unfinished(t, x)) {
      assert x != c ==> Unfinished(t, x) == Unfinished(s, x);
    }
  }

  lemma OneFurtherBar(s: State, t: State, c: nat)
    requires OneFurther(s, t, c) && Live(s, c) == 1 && Unfinished(s, c)
    ensures Answered(t) == Answered(s)
  {
    forall i: nat | i < |s.records| ensures Answered(t)[i] == Answered(s)[i] {
      assert i != c ==> Unfinished(t, i) == Unfinished(s, i);
    }
  }

  lemma AdvanceLive(s: State)
    requires LiveInv(s) && BarInv(s) && Succeeds(s)
    ensures LiveInv(Advance(s)) && BarInv(Advance(s))
  {
    var c := s.answers[0].client;
    AnsweredAlone(s);
    AdvanceIsOneFurther(s);
    OneFurtherLive(s, Advance(s), c);
    OneFurtherBar(s, Advance(s), c);
  }

  lemma AdvancePrompts(s: State)
    requires LiveInv(s) && PromptInv(s) && Succeeds(s)
    ensures PromptInv(Advance(s))
  {
    var t, c := Advance(s), s.answers[0].client;
    AnsweredAlone(s);
    PromptsStay(s.ready, s.records, t.records, c);
    PromptsStay(s.flight, s.records, t.records, c);
    PromptsStay(s.parked, s.records, t.records, c);
    if Continues(s) {
      var q := s.stock[|s.stock| - 1];
      var req := Item(c, Payload(t.records[c].history, q.outputLen));
      OneMorePrompt(s.ready, req, t.records);
      OneMorePrompt(s.parked, req, t.records);
    }
  }

  lemma PromptsStay(rs: seq<Request>, a: seq<Record>, b: seq<Record>, c: nat)
    requires PromptsAre(rs, a) && c < |a| == |b|
    requires forall x: nat :: x < |a| && x != c ==> b[x] == a[x]
    requires forall k :: 0 <= k < |rs| ==> rs[k].client != c
    ensures PromptsAre(rs, b)
  {
  }

  lemma OneMorePrompt(rs: seq<Request>, q: Request, records: seq<Record>)
    requires PromptsAre(rs, records) && q.client < |records| && q.body.prompt == records[q.client].history
    ensures PromptsAre(rs + [q], records)
  {
  }

  lemma TallyLive(s: State)
    requires s.barrierRound < |s.cfg.perRound|
    requires LiveInv(s) && BarInv(s)
    ensures LiveInv(Tally(s)) && BarInv(Tally(s))
  {
    var t := Tally(s);
    forall x: nat ensures Live(t, x) == Live(s, x) && Unfinished(t, x) == Unfinished(s, x) {
      TallyKeepsLive(s, x);
    }
    assert Answered(t) == Answered(s);
  }

  lemma TallyKeeps(s: State)
    requires s.barrierRound < |s.cfg.perRound|
    requires AllButBarrier(s)
    ensures AllButBarrier(Tally(s))
  {
    TallyLive(s);
  }

  /** Completing one more client of round `b` adds it to those that are done. */
  lemma DoneGrows(s: State, t: State, c: nat, b: nat)
    requires c < |s.records| == |t.records| && s.records[c].round == b < s.records[c].total
    requires forall x: nat :: x < |s.records| && x != c ==> t.records[x] == s.records[x]
    requires t.records[c].round == b + 1 && t.records[c].total == s.records[c].total
    requires forall i :: 0 <= i < |s.records| ==> s.records[i].round <= s.records[i].total
    ensures |Done(t.records, b)| == |Done(s.records, b)| + 1
    ensures Members(t.records, b) == Members(s.records, b)
    ensures Done(t.records, b) <= Members(t.records, b)
    ensures |Done(t.records, b)| <= |Members(t.records, b)|
    ensures |Done(t.records, b)| == |Members(t.records, b)| ==> Done(t.records, b) == Members(t.records, b)
  {
    assert Done(t.records, b) == Done(s.records, b) + {c} && c !in Done(s.records, b);
    SubsetCardinality(Done(t.records, b), Members(t.records, b));
  }

  /** When every member of the round is done, only parked requests are left. */
  lemma BarrierOpens(s: State, t: State)
    requires LiveInv(s) && BarrierInv(s) && Succeeds(s) && s.cfg.barrier && t == Advance(s)
    requires forall i :: 0 <= i < |t.records| && t.records[i].total > s.barrierRound ==>
                           t.records[i].round == s.barrierRound + 1
    ensures t.ready == [] && t.flight == [] && t.answers == []
  {
    AnsweredAlone(s);
    if s.ready != [] { CountMember(s.ready, 0); NotWaiting(s, t, s.ready[0].client); }
    if s.flight != [] { CountMember(s.flight, 0); NotWaiting(s, t, s.flight[0].client); }
    if |s.answers| > 1 { CountMember(s.answers, 1); NotWaiting(s, t, s.answers[1].client); }
  }

  lemma NotWaiting(s: State, t: State, x: nat)
    requires LiveInv(s) && Live(s, x) > 0 && |t.records| == |s.records|
    requires forall i :: 0 <= i < |t.records| && t.records[i].total > s.barrierRound ==>
                           t.records[i].round == s.barrierRound + 1
    requires x < |s.records| ==> t.records[x] == s.records[x]
    ensures x < |s.records| && s.records[x].round != s.barrierRound
  {
    assert Unfinished(s, x);
    assert t.records[x] == s.records[x];
  }

  lemma OthersStay<T>(items: seq<Item<T>>, a: seq<Record>, b: seq<Record>, c: nat, r: int)
    requires AllAtRound(items, a, r) && c < |a| == |b|
    requires forall x: nat :: x < |a| && x != c ==> b[x] == a[x]
    requires forall k :: 0 <= k < |items| ==> items[k].client != c
    ensures AllAtRound(items, b, r)
  {
  }

  lemma OneMoreParked(items: seq<Request>, q: Request, records: seq<Record>, r: int)
    requires AllAtRound(items, records, r) && q.client < |records| && records[q.client].round == r
    ensures AllAtRound(items + [q], records, r)
  {
  }

  lemma AnswerAtBarrier(s: State)
    requires LiveInv(s) && BarrierInv(s) && ConfigInv(s) && Succeeds(s) && s.cfg.barrier
    ensures s.records[s.answers[0].client].round == s.barrierRound < s.cfg.maxRounds
  {
    AnsweredAlone(s);
  }

  lemma AdvanceBarrier(s: State)
    requires LiveInv(s) && BarrierInv(s) && ConfigInv(s) && Succeeds(s) && s.cfg.barrier
    ensures var t, c := Advance(s), s.answers[0].client;
      && s.records[c].round == s.barrierRound < s.cfg.maxRounds
      && AllAtRound(t.ready, t.records, s.barrierRound)
      && AllAtRound(t.flight, t.records, s.barrierRound)
      && AllAtRound(t.answers, t.records, s.barrierRound)
      && AllAtRound(t.parked, t.records, s.barrierRound + 1)
  {
    var t, c, b := Advance(s), s.answers[0].client, s.barrierRound;
    AnsweredAlone(s);
    AnswerAtBarrier(s);
    OthersStay(s.ready, s.records, t.records, c, b);
    OthersStay(s.flight, s.records, t.records, c, b);
    OthersStay(s.answers[1..], s.records, t.records, c, b);
    OthersStay(s.parked, s.records, t.records, c, b + 1);
    if Continues(s) {
      OneMoreParked(s.parked, t.parked[|s.parked|], t.records, b + 1);
    }
  }

  lemma TallyBarrier(t: State)
    requires t.cfg.barrier && t.barrierRound < |t.cfg.perRound|
    requires t.cfg.perRound[t.barrierRound] == |Members(t.records, t.barrierRound)|
    requires forall i :: 0 <= i < |t.records| ==>
               && t.records[i].round <= t.records[i].total
               && Min(t.barrierRound, t.records[i].total) <= t.records[i].round <= t.barrierRound + 1
    requires t.barrierDone + 1 == |Done(t.records, t.barrierRound)| <= |Members(t.records, t.barrierRound)|
    requires AllAtRound(t.ready, t.records, t.barrierRound)
    requires AllAtRound(t.flight, t.records, t.barrierRound)
    requires AllAtRound(t.answers, t.records, t.barrierRound)
    requires AllAtRound(t.parked, t.records, t.barrierRound + 1)
    requires Done(t.records, t.barrierRound) == Members(t.records, t.barrierRound) ==>
               t.ready == [] && t.flight == [] && t.answers == []
    ensures BarrierInv(Tally(t))
  {
    var b := t.barrierRound;
    SubsetCardinality(Done(t.records, b), Members(t.records, b));
    if |Done(t.records, b)| == |Members(t.records, b)| {
      assert Done(t.records, b + 1) == {};
      assert forall i :: 0 <= i < |t.records| && t.records[i].total > b ==> i in Members(t.records, b);
    }
  }

  lemma TallyOneFurther(s: State, t: State, c: nat)
    requires BarrierInv(s) && ConfigInv(s) && OneFurther(s, t, c) && s.cfg.barrier
    requires t.barrierRound == s.barrierRound && t.barrierDone == s.barrierDone
    requires s.records[c].round == s.barrierRound < s.records[c].total
    requires AllAtRound(t.ready, t.records, s.barrierRound)
    requires AllAtRound(t.flight, t.records, s.barrierRound)
    requires AllAtRound(t.answers, t.records, s.barrierRound)
    requires AllAtRound(t.parked, t.records, s.barrierRound + 1)
    requires Done(t.records, s.barrierRound) == Members(t.records, s.barrierRound) ==>
               t.ready == [] && t.flight == [] && t.answers == []
    ensures BarrierInv(Tally(t))
  {
    DoneGrows(s, t, c, s.barrierRound);
    CountAboveIsCardinality(s.records, s.barrierRound);
    TallyBarrier(t);
  }

  /** The barrier opens exactly when the last member of the round completes it. */
  lemma SuccessBarrier(s: State)
    requires LiveInv(s) && BarrierInv(s) && ConfigInv(s) && Succeeds(s) && s.cfg.barrier
    ensures s.barrierRound < s.cfg.maxRounds
    ensures BarrierInv(Tally(Advance(s)))
  {
    var c, b, t := s.answers[0].client, s.barrierRound, Advance(s);
    AnsweredAlone(s);
    AdvanceBarrier(s);
    AdvanceIsOneFurther(s);
    if Done(t.records, b) == Members(t.records, b) {
      forall i | 0 <= i < |t.records| && t.records[i].total > b ensures t.records[i].round == b + 1 {
        assert i in Members(t.records, b);
      }
      BarrierOpens(s, t);
    }
    TallyOneFurther(s, t, c);
  }

  lemma SubsetCardinality<T>(a: set<T>, b: set<T>)
    requires a <= b
    ensures |a| <= |b| && (|a| == |b| ==> a == b)
  {
    assert b == a + (b - a);
    assert |b| == |a| + |b - a|;
  }

  lemma AdvanceInv(s: State)
    requires Inv(s) && Succeeds(s)
    ensures AllButBarrier(Advance(s))
  {
    AdvanceConfig(s);
    AdvanceStock(s);
    AdvanceLive(s);
    AdvancePrompts(s);
  }

  lemma SuccessInv(s: State)
    requires Inv(s) && s.answers != [] && s.answers[0].body.success
    ensures Inv(HandleAnswer(s))
  {
    NoFault(s);
    AdvanceInv(s);
    if s.cfg.barrier {
      SuccessBarrier(s);
      TallyKeeps(Advance(s));
    }
  }

  // ---------- every run ----------

  lemma StepInv(s: State, e: Event)
    requires Inv(s) && Enabled(s, e)
    ensures Inv(Apply(s, e))
  {
    match e
    case Admit => IdleInv(s, e);
    case Pop(k) => PopInv(s, k);
    case PopEmpty => IdleInv(s, e);
    case Reply(_, _, _) => ReplyInv(s, e);
    case Handle => if s.answers[0].body.success { SuccessInv(s); } else { FailInv(s); }
  }

  lemma {:induction false} RunInv(states: seq<State>, events: seq<Event>, k: nat)
    requires IsRun(states, events) && k < |states|
    ensures Inv(states[k])
  {
    if k == 0 {
      InitInv(states[0]);
    } else {
      RunInv(states, events, k - 1);
      StepInv(states[k - 1], events[k - 1]);
    }
  }
}
