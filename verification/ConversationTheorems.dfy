/** What every run of the conversation queue keeps, and what a failure-free run achieves. */
module ConversationTheorems {
  import opened Sums
  import opened ConversationQueue

  // ---------- the invariant ----------

  function Taken(s: State, c: nat): nat {
    Occurrences(s.waiting, c) + Occurrences(s.running, c)
  }

  /** A conversation is in at most one of the three places. */
  ghost predicate PlaceInv(s: State) {
    && (forall c: nat :: Occurrences(s.queue, c) + Taken(s, c) <= 1)
    && (forall c: nat :: Occurrences(s.queue, c) + Taken(s, c) > 0 ==> c < |s.talks|)
  }

  /** Queued plus taken conversations never exceed the bound, so putting one back never blocks. */
  ghost predicate SizeInv(s: State) {
    !s.blocked && |s.queue| + |s.waiting| + |s.running| <= s.bound
  }

  /** The first round of takes follows the input order. */
  ghost predicate FifoInv(s: State) {
    s.gets <= |s.talks| ==>
      && |s.talks| - s.gets <= |s.queue|
      && forall j :: 0 <= j < |s.talks| - s.gets ==> s.queue[j] == s.gets + j
  }

  /** The messages are the prompts in order, each followed by an answer. */
  ghost predicate Alternates(talk: Conversation) {
    forall m :: 0 <= m < |talk.messages| ==>
      if m % 2 == 0
      then m / 2 < |talk.prompts| && talk.messages[m] == Message(User, talk.prompts[m / 2].content)
      else talk.messages[m].role == Assistant
  }

  ghost predicate TalkInv(s: State, c: nat)
    requires c < |s.talks|
  {
    var talk := s.talks[c];
    && Alternates(talk)
    && (talk.finished < |talk.prompts| || (talk.prompts == [] && talk.finished == 0))
    && (Occurrences(s.queue, c) + Occurrences(s.waiting, c) > 0 ==> |talk.messages| == 2 * talk.finished)
    && (Occurrences(s.running, c) > 0 ==> talk.prompts != [] && |talk.messages| == 2 * talk.finished + 1)
  }

  /** Only the output lengths of the prompts change. */
  ghost predicate SameTexts(talks: seq<Conversation>, input: seq<seq<Prompt>>) {
    && |talks| == |input|
    && forall c :: 0 <= c < |talks| ==>
         && |talks[c].prompts| == |input[c]|
         && forall i :: 0 <= i < |input[c]| ==>
              talks[c].prompts[i].content == input[c][i].content && talks[c].prompts[i].inputLen == input[c][i].inputLen
  }

  ghost predicate Inv(s: State, input: seq<seq<Prompt>>) {
    && PlaceInv(s) && SizeInv(s) && FifoInv(s) && SameTexts(s.talks, input)
    && s.limit == Sum(Lengths(input))
    && forall c: nat :: c < |s.talks| ==> TalkInv(s, c)
  }

  ghost function Effective(input: seq<seq<Prompt>>, shared: bool): seq<seq<Prompt>> {
    if shared then Flatten(input) else input
  }

  lemma {:induction false} IdentityOnce(ids: seq<nat>, c: nat)
    requires forall i :: 0 <= i < |ids| ==> ids[i] == i
    ensures Occurrences(ids, c) == One(c < |ids|)
  {
    if ids != [] {
      IdentityOnce(ids[..|ids| - 1], c);
    }
  }

  lemma InitInv(s: State, input: seq<seq<Prompt>>, shared: bool)
    requires IsInit(s, input, shared)
    ensures Inv(s, Effective(input, shared))
  {
    forall c: nat ensures Occurrences(s.queue, c) == One(c < |s.queue|) {
      IdentityOnce(s.queue, c);
    }
    FlattenKeepsTotal(input);
  }

  // ---------- the moves ----------

  lemma GetMoves(s: State, c: nat)
    requires Enabled(s, Get)
    ensures var t := Apply(s, Get);
      && Occurrences(t.queue, c) == Occurrences(s.queue, c) - One(c == s.queue[0])
      && Occurrences(t.waiting, c) == Occurrences(s.waiting, c) + One(c == s.queue[0])
  {
    OccurrencesRemove(s.queue, 0, c);
    assert RemoveAt(s.queue, 0) == s.queue[1..];
    OccurrencesPush(s.waiting, s.queue[0], c);
  }

  lemma GetInv(s: State, input: seq<seq<Prompt>>)
    requires Inv(s, input) && Enabled(s, Get)
    ensures Inv(Apply(s, Get), input)
  {
    var t := Apply(s, Get);
    forall c: nat
      ensures Occurrences(t.queue, c) == Occurrences(s.queue, c) - One(c == s.queue[0])
      ensures Occurrences(t.waiting, c) == Occurrences(s.waiting, c) + One(c == s.queue[0])
    {
      GetMoves(s, c);
    }
    forall c: nat | c < |t.talks| ensures TalkInv(t, c) {
      assert TalkInv(s, c);
    }
  }

  lemma BeginMoves(s: State, k: nat, c: nat)
    requires k < |s.waiting|
    ensures var t := Begin(s, k);
      && t.queue == s.queue
      && Occurrences(t.waiting, c) == Occurrences(s.waiting, c) - One(c == s.waiting[k])
      && Occurrences(t.running, c) ==
           Occurrences(s.running, c) + One(c == s.waiting[k] && HasPrompt(s, s.waiting[k]))
  {
    OccurrencesRemove(s.waiting, k, c);
    OccurrencesPush(s.running, s.waiting[k], c);
  }

  lemma AlternatesPush(talk: Conversation, m: Message)
    requires Alternates(talk)
    requires var n := |talk.messages|;
      if n % 2 == 0 then n / 2 < |talk.prompts| && m == Message(User, talk.prompts[n / 2].content)
      else m.role == Assistant
    ensures Alternates(talk.(messages := talk.messages + [m]))
  {
  }

  lemma AskAlternates(talk: Conversation)
    requires Alternates(talk) && |talk.messages| == 2 * talk.finished && talk.finished < |talk.prompts|
    ensures Alternates(talk.(messages := talk.messages + [Message(User, talk.prompts[talk.finished].content)]))
  {
    AlternatesPush(talk, Message(User, talk.prompts[talk.finished].content));
  }

  /** A conversation that does not change keeps its part of the invariant when it is not counted anywhere new. */
  lemma TalkFrame(s: State, t: State, c: nat)
    requires c < |s.talks| && c < |t.talks| && TalkInv(s, c) && t.talks[c] == s.talks[c]
    requires Occurrences(t.queue, c) + Occurrences(t.waiting, c) <= Occurrences(s.queue, c) + Occurrences(s.waiting, c)
    requires Occurrences(t.running, c) <= Occurrences(s.running, c)
    ensures TalkInv(t, c)
  {
  }

  lemma BeginOwn(s: State, k: nat)
    requires k < |s.waiting| && HasPrompt(s, s.waiting[k]) && TalkInv(s, s.waiting[k])
    requires Occurrences(s.waiting, s.waiting[k]) > 0
    requires var t, c := Begin(s, k), s.waiting[k]; Occurrences(t.queue, c) + Occurrences(t.waiting, c) == 0
    ensures TalkInv(Begin(s, k), s.waiting[k])
  {
    AskAlternates(s.talks[s.waiting[k]]);
  }

  lemma BeginTalks(s: State, k: nat, c: nat)
    requires k < |s.waiting| && c < |s.talks| && TalkInv(s, c)
    requires Occurrences(s.queue, c) + Taken(s, c) <= 1
    ensures |Begin(s, k).talks| == |s.talks| && TalkInv(Begin(s, k), c)
  {
    BeginMoves(s, k, c);
    OccurrencesMember(s.waiting, k);
    if c == s.waiting[k] && HasPrompt(s, c) {
      BeginOwn(s, k);
    } else {
      TalkFrame(s, Begin(s, k), c);
    }
  }

  lemma StartInv(s: State, k: nat, input: seq<seq<Prompt>>)
    requires Inv(s, input) && Enabled(s, Start(k))
    ensures Inv(Apply(s, Start(k)), input)
  {
    var t := Begin(s, k);
    forall c: nat
      ensures Occurrences(t.queue, c) + Taken(t, c) <= Occurrences(s.queue, c) + Taken(s, c)
    {
      BeginMoves(s, k, c);
    }
    forall c: nat | c < |s.talks| ensures TalkInv(t, c) {
      BeginTalks(s, k, c);
    }
  }

  lemma FinishMoves(s: State, k: nat, text: string, outputLen: int, c: nat)
    requires k < |s.running| && |s.queue| < s.bound
    ensures var t, x := Finish(s, k, text, outputLen), s.running[k];
      && t.waiting == s.waiting && t.blocked == s.blocked
      && Occurrences(t.running, c) == Occurrences(s.running, c) - One(c == x)
      && Occurrences(t.queue, c) == Occurrences(s.queue, c) +
           One(c == x && HasPrompt(s, x) && s.talks[x].finished + 1 < |s.talks[x].prompts|)
  {
    OccurrencesRemove(s.running, k, c);
    OccurrencesPush(s.queue, s.running[k], c);
  }

  lemma AnswerAlternates(talk: Conversation, text: string, outputLen: int)
    requires Alternates(talk) && talk.finished < |talk.prompts| && |talk.messages| % 2 == 1
    ensures var i := talk.finished;
      Alternates(talk.(prompts := talk.prompts[i := talk.prompts[i].(outputLen := outputLen)],
                       messages := talk.messages + [Message(Assistant, text)]))
  {
    AlternatesPush(talk, Message(Assistant, text));
  }

  lemma FinishTalks(s: State, k: nat, text: string, outputLen: int, c: nat)
    requires k < |s.running| && |s.queue| < s.bound && c < |s.talks| && TalkInv(s, c)
    requires Occurrences(s.queue, c) + Taken(s, c) <= 1
    ensures var t := Finish(s, k, text, outputLen); |t.talks| == |s.talks| && TalkInv(t, c)
  {
    FinishMoves(s, k, text, outputLen, c);
    OccurrencesMember(s.running, k);
    if c == s.running[k] {
      AnswerAlternates(s.talks[c], text, outputLen);
    }
  }

  lemma SucceedInv(s: State, e: Event, input: seq<seq<Prompt>>)
    requires e.Succeed? && Inv(s, input) && Enabled(s, e)
    ensures Inv(Apply(s, e), input)
  {
    var t := Finish(s, e.task, e.text, e.outputLen);
    forall c: nat
      ensures Occurrences(t.queue, c) + Taken(t, c) <= Occurrences(s.queue, c) + Taken(s, c)
    {
      FinishMoves(s, e.task, e.text, e.outputLen, c);
    }
    forall c: nat | c < |s.talks| ensures TalkInv(t, c) {
      FinishTalks(s, e.task, e.text, e.outputLen, c);
    }
  }

  lemma FailInv(s: State, k: nat, input: seq<seq<Prompt>>)
    requires Inv(s, input) && Enabled(s, Fail(k))
    ensures Inv(Apply(s, Fail(k)), input)
  {
    var t := Apply(s, Fail(k));
    forall c: nat ensures Occurrences(t.running, c) == Occurrences(s.running, c) - One(c == s.running[k]) {
      OccurrencesRemove(s.running, k, c);
    }
    forall c: nat | c < |t.talks| ensures TalkInv(t, c) {
      assert TalkInv(s, c);
    }
  }

  lemma StepInv(s: State, e: Event, input: seq<seq<Prompt>>)
    requires Inv(s, input) && Enabled(s, e)
    ensures Inv(Apply(s, e), input)
  {
    match e
    case Get => GetInv(s, input);
    case Abort =>
      forall c: nat | c < |s.talks| ensures TalkInv(Apply(s, e), c) { assert TalkInv(s, c); }
      assert forall c: nat :: Taken(Apply(s, e), c) == Taken(s, c);
    case Start(k) => StartInv(s, k, input);
    case Succeed(_, _, _) => SucceedInv(s, e, input);
    case Fail(k) => FailInv(s, k, input);
  }

  /** In every run, failed requests included, queued plus taken conversations stay within the bound. */
  lemma {:induction false} RunInv(states: seq<State>, events: seq<Event>, input: seq<seq<Prompt>>, shared: bool, k: nat)
    requires IsRun(states, events, input, shared) && k < |states|
    ensures Inv(states[k], Effective(input, shared))
  {
    if k == 0 {
      InitInv(states[0], input, shared);
    } else {
      RunInv(states, events, input, shared, k - 1);
      StepInv(states[k - 1], events[k - 1], Effective(input, shared));
    }
  }

  // ---------- conversations without prompts ----------

  /** An empty conversation is harmless exactly when it is so far back that it is never taken. */
  ghost predicate EmptyOnesLast(input: seq<seq<Prompt>>) {
    forall c :: 0 <= c < |input| && input[c] == [] ==> c >= Sum(Lengths(input))
  }

  ghost predicate EmptyStayQueued(s: State) {
    && !s.crashed
    && forall c: nat :: c < |s.talks| && s.talks[c].prompts == [] ==> Occurrences(s.queue, c) == 1
  }

  lemma WaitingHasPrompt(s: State, k: nat, input: seq<seq<Prompt>>)
    requires Inv(s, input) && EmptyStayQueued(s) && k < |s.waiting|
    ensures HasPrompt(s, s.waiting[k])
  {
    var c := s.waiting[k];
    OccurrencesMember(s.waiting, k);
    assert Occurrences(s.queue, c) + Taken(s, c) <= 1 && Taken(s, c) > 0;
    assert TalkInv(s, c);
  }

  lemma RunningHasPrompt(s: State, k: nat, input: seq<seq<Prompt>>)
    requires Inv(s, input) && k < |s.running|
    ensures HasPrompt(s, s.running[k])
  {
    var c := s.running[k];
    OccurrencesMember(s.running, k);
    assert Occurrences(s.queue, c) + Taken(s, c) > 0;
    assert TalkInv(s, c);
  }

  lemma StepEmpty(s: State, e: Event, input: seq<seq<Prompt>>)
    requires Inv(s, input) && EmptyOnesLast(input) && EmptyStayQueued(s) && Enabled(s, e)
    ensures EmptyStayQueued(Apply(s, e))
  {
    var t := Apply(s, e);
    if e.Start? { WaitingHasPrompt(s, e.task, input); }
    if e.Succeed? { RunningHasPrompt(s, e.task, input); }
    forall c: nat | c < |t.talks| && t.talks[c].prompts == [] ensures Occurrences(t.queue, c) == 1 {
      assert s.talks[c].prompts == [];
      match e
      case Get =>
        assert input[c] == [];
        assert c != s.queue[0];
        GetMoves(s, c);
      case Abort =>
      case Start(k) => BeginMoves(s, k, c);
      case Succeed(k, text, n) => FinishMoves(s, k, text, n, c);
      case Fail(k) =>
    }
  }

  /** If every empty conversation lies behind as many others as there are prompts, no run crashes. */
  lemma {:induction false} RunEmpty(states: seq<State>, events: seq<Event>, input: seq<seq<Prompt>>, shared: bool, k: nat)
    requires IsRun(states, events, input, shared) && k < |states|
    requires EmptyOnesLast(Effective(input, shared))
    ensures Inv(states[k], Effective(input, shared)) && EmptyStayQueued(states[k])
  {
    RunInv(states, events, input, shared, k);
    if k == 0 {
      forall c: nat | c < |states[0].talks| ensures Occurrences(states[0].queue, c) == 1 {
        IdentityOnce(states[0].queue, c);
      }
    } else {
      RunEmpty(states, events, input, shared, k - 1);
      StepEmpty(states[k - 1], events[k - 1], Effective(input, shared));
    }
  }

  /** Conversation `c` is still to be taken, waits without having sent anything, or has crashed its task. */
  ghost predicate DoomedBy(s: State, c: nat) {
    && c < |s.talks| && s.talks[c].prompts == []
    && (s.gets > c && !s.crashed ==> Occurrences(s.waiting, c) == 1)
  }

  lemma StepDoomed(s: State, e: Event, input: seq<seq<Prompt>>, c: nat)
    requires Inv(s, input) && Enabled(s, e) && DoomedBy(s, c)
    ensures DoomedBy(Apply(s, e), c)
  {
    var t := Apply(s, e);
    assert TalkInv(s, c);
    match e
    case Get => GetMoves(s, c);
    case Abort =>
    case Start(k) => BeginMoves(s, k, c);
    case Succeed(k, text, n) =>
      RunningHasPrompt(s, k, input);
      FinishMoves(s, k, text, n, c);
    case Fail(k) =>
  }

  lemma {:induction false} RunDoomed(
      states: seq<State>, events: seq<Event>, input: seq<seq<Prompt>>, shared: bool, k: nat, c: nat)
    requires IsRun(states, events, input, shared) && k < |states|
    requires c < |Effective(input, shared)| && Effective(input, shared)[c] == []
    ensures DoomedBy(states[k], c)
  {
    if k > 0 {
      RunDoomed(states, events, input, shared, k - 1, c);
      RunInv(states, events, input, shared, k - 1);
      StepDoomed(states[k - 1], events[k - 1], Effective(input, shared), c);
    }
  }

  /**
   The exact condition on the input: a run that has taken every conversation it wants and whose tasks
   have all entered their requests has crashed if and only if some empty conversation is not last enough.
   */
  lemma CrashIff(states: seq<State>, events: seq<Event>, input: seq<seq<Prompt>>, shared: bool, k: nat)
    requires IsRun(states, events, input, shared) && k < |states|
    requires states[k].gets == states[k].limit && states[k].waiting == []
    ensures states[k].crashed <==> !EmptyOnesLast(Effective(input, shared))
  {
    var talks := Effective(input, shared);
    RunInv(states, events, input, shared, k);
    if EmptyOnesLast(talks) {
      RunEmpty(states, events, input, shared, k);
    } else {
      var c :| 0 <= c < |talks| && talks[c] == [] && c < Sum(Lengths(talks));
      RunDoomed(states, events, input, shared, k, c);
    }
  }

  /** A run that meets a failing lookup: an empty conversation between two of one prompt. */
  lemma EmptyConversationCrashes(p: Prompt, q: Prompt) returns (states: seq<State>)
    ensures IsRun(states, [Get, Get, Start(1), Start(0)], [[p], [], [q]], false)
    ensures states[4].crashed && states[4].gets == states[4].limit && states[4].waiting == []
  {
    var input := [[p], [], [q]];
    var talks := [Conversation([p], [], 0), Conversation([], [], 0), Conversation([q], [], 0)];
    assert Lengths(input) == [1, 0, 1];
    assert Sum([1, 0, 1]) == 2;
    var s0 := State(talks, [0, 1, 2], [], [], 3, 2, 0, 0, false, false, false);
    var s1 := Apply(s0, Get);
    var s2 := Apply(s1, Get);
    assert s2.waiting == [0, 1];
    var s3 := Apply(s2, Start(1));
    assert s3.waiting == [0] && s3.crashed;
    var s4 := Apply(s3, Start(0));
    assert s4.waiting == [];
    states := [s0, s1, s2, s3, s4];
  }

  // ---------- failure-free runs ----------

  ghost predicate FailureFree(events: seq<Event>) {
    forall k :: 0 <= k < |events| ==> !events[k].Fail? && !events[k].Abort?
  }

  ghost predicate Placed(s: State, c: nat) {
    Occurrences(s.queue, c) + Taken(s, c) > 0
  }

  /** How many prompts of each conversation have been handed to a task. */
  ghost function Sent(s: State): (t: seq<int>)
    ensures |t| == |s.talks|
  {
    seq(|s.talks|, c requires 0 <= c < |s.talks| =>
      if Placed(s, c) then s.talks[c].finished + Taken(s, c) else |s.talks[c].prompts|)
  }

  ghost predicate Healthy(s: State) {
    && s.gets == Sum(Sent(s))
    && forall c: nat :: c < |s.talks| && !Placed(s, c) ==> |s.talks[c].messages| == 2 * |s.talks[c].prompts|
  }

  lemma GetHealthy(s: State)
    requires PlaceInv(s) && Healthy(s) && Enabled(s, Get)
    ensures Healthy(Apply(s, Get))
  {
    var t, x := Apply(s, Get), s.queue[0];
    forall c: nat
      ensures Placed(t, c) == Placed(s, c) && Taken(t, c) == Taken(s, c) + One(c == x)
    {
      GetMoves(s, c);
    }
    OccurrencesMember(s.queue, 0);
    assert Placed(s, x);
    assert Sent(t) == Sent(s)[x := Sent(s)[x] + 1];
    SumUpdate(Sent(s), x, Sent(s)[x] + 1);
  }

  lemma StartHealthy(s: State, k: nat, input: seq<seq<Prompt>>)
    requires Inv(s, input) && Healthy(s) && EmptyStayQueued(s) && Enabled(s, Start(k))
    ensures Healthy(Apply(s, Start(k)))
  {
    var t := Begin(s, k);
    WaitingHasPrompt(s, k, input);
    OccurrencesMember(s.waiting, k);
    forall c: nat ensures Placed(t, c) == Placed(s, c) && Taken(t, c) == Taken(s, c) {
      BeginMoves(s, k, c);
    }
    assert Placed(s, s.waiting[k]);
    assert Sent(t) == Sent(s);
  }

  /** `t` is `s` after conversation `x` has left its task, back to the queue if `more` prompts are left. */
  lemma AnswerKeepsSent(s: State, t: State, x: nat, more: bool)
    requires x < |s.talks| == |t.talks| && Placed(s, x) && Taken(s, x) == 1
    requires forall c: nat :: c < |s.talks| && c != x ==> t.talks[c] == s.talks[c]
    requires forall c: nat :: Placed(t, c) == (Placed(s, c) && (c == x ==> more))
    requires forall c: nat :: Taken(t, c) == Taken(s, c) - One(c == x)
    requires |t.talks[x].prompts| == |s.talks[x].prompts| && s.talks[x].finished < |s.talks[x].prompts|
    requires more == (s.talks[x].finished + 1 < |s.talks[x].prompts|)
    requires more ==> t.talks[x].finished == s.talks[x].finished + 1
    ensures Sent(t) == Sent(s)
  {
    forall c: nat | c < |s.talks| ensures Sent(t)[c] == Sent(s)[c] {
    }
  }

  lemma FinishFacts(s: State, e: Event, input: seq<seq<Prompt>>)
    requires e.Succeed? && Inv(s, input) && Enabled(s, e)
    ensures var t, x := Finish(s, e.task, e.text, e.outputLen), s.running[e.task];
      && HasPrompt(s, x) && Taken(s, x) == 1 && |s.talks[x].messages| == 2 * s.talks[x].finished + 1
      && forall c: nat ::
           && Placed(t, c) == (Placed(s, c) && (c == x ==> s.talks[x].finished + 1 < |s.talks[x].prompts|))
           && Taken(t, c) == Taken(s, c) - One(c == x)
  {
    var t, x := Finish(s, e.task, e.text, e.outputLen), s.running[e.task];
    RunningHasPrompt(s, e.task, input);
    OccurrencesMember(s.running, e.task);
    assert TalkInv(s, x);
    forall c: nat
      ensures Placed(t, c) == (Placed(s, c) && (c == x ==> s.talks[x].finished + 1 < |s.talks[x].prompts|))
      ensures Taken(t, c) == Taken(s, c) - One(c == x)
    {
      FinishMoves(s, e.task, e.text, e.outputLen, c);
      assert Occurrences(s.queue, c) + Taken(s, c) <= 1;
    }
  }

  lemma SucceedHealthy(s: State, e: Event, input: seq<seq<Prompt>>)
    requires e.Succeed? && Inv(s, input) && Healthy(s) && Enabled(s, e)
    ensures Healthy(Apply(s, e))
  {
    var x := s.running[e.task];
    FinishFacts(s, e, input);
    AnswerKeepsSent(s, Finish(s, e.task, e.text, e.outputLen), x, s.talks[x].finished + 1 < |s.talks[x].prompts|);
  }

  lemma InitHealthy(s: State, input: seq<seq<Prompt>>, shared: bool)
    requires IsInit(s, input, shared)
    ensures Healthy(s)
  {
    forall c: nat ensures Occurrences(s.queue, c) == One(c < |s.queue|) { IdentityOnce(s.queue, c); }
    SumZero(Sent(s));
  }

  lemma StepHealthy(s: State, e: Event, input: seq<seq<Prompt>>)
    requires Inv(s, input) && Healthy(s) && EmptyStayQueued(s) && Enabled(s, e) && !e.Fail? && !e.Abort?
    ensures Healthy(Apply(s, e))
  {
    match e
    case Get => GetHealthy(s);
    case Start(i) => StartHealthy(s, i, input);
    case Succeed(_, _, _) => SucceedHealthy(s, e, input);
  }

  lemma {:induction false} RunHealthy(states: seq<State>, events: seq<Event>, input: seq<seq<Prompt>>, shared: bool, k: nat)
    requires IsRun(states, events, input, shared) && k < |states| && FailureFree(events)
    requires EmptyOnesLast(Effective(input, shared))
    ensures Inv(states[k], Effective(input, shared)) && EmptyStayQueued(states[k]) && Healthy(states[k])
  {
    RunEmpty(states, events, input, shared, k);
    if k == 0 {
      InitHealthy(states[0], input, shared);
    } else {
      RunHealthy(states, events, input, shared, k - 1);
      StepHealthy(states[k - 1], events[k - 1], Effective(input, shared));
    }
  }

  lemma SentBelow(s: State, input: seq<seq<Prompt>>)
    requires Inv(s, input) && EmptyStayQueued(s)
    ensures Sum(Sent(s)) <= s.limit
    ensures Sum(Sent(s)) == s.limit ==> Sent(s) == Lengths(input)
  {
    forall c: nat | c < |s.talks| ensures Sent(s)[c] <= Lengths(input)[c] {
      assert TalkInv(s, c);
      assert Occurrences(s.queue, c) + Taken(s, c) <= 1;
    }
    SumPointwise(Sent(s), Lengths(input));
  }

  /**
   No get starves: while conversations are still to be taken, one is queued, or a taken one has
   prompts left and its answer puts it back.
   */
  lemma NoStarvation(states: seq<State>, events: seq<Event>, input: seq<seq<Prompt>>, shared: bool, k: nat)
    requires IsRun(states, events, input, shared) && k < |states| && FailureFree(events)
    requires EmptyOnesLast(Effective(input, shared)) && states[k].gets < states[k].limit
    ensures var s := states[k];
      || s.queue != []
      || exists c: nat :: c < |s.talks| && Taken(s, c) == 1 && s.talks[c].finished + 1 < |s.talks[c].prompts|
  {
    var s, talks := states[k], Effective(input, shared);
    RunHealthy(states, events, input, shared, k);
    SentBelow(s, talks);
    assert Sent(s) != Lengths(talks);
    var c: nat :| c < |s.talks| && Sent(s)[c] != Lengths(talks)[c];
    assert TalkInv(s, c) && Occurrences(s.queue, c) + Taken(s, c) <= 1;
    if s.queue == [] {
      assert Taken(s, c) == 1;
    }
  }

  /** Nothing but a timeout or a failure can happen next. */
  ghost predicate Stuck(s: State) {
    !Enabled(s, Get) && forall task :: !Enabled(s, Start(task)) && !Enabled(s, Succeed(task, "", 0))
  }

  /** One get, start and end are left per prompt not taken, less what has been done, and one timeout. */
  function Fuel(s: State): int {
    3 * (s.limit - s.gets) + 2 * |s.waiting| + |s.running| + if s.aborted then 0 else 1
  }

  lemma StepBurns(s: State, e: Event)
    requires Enabled(s, e)
    ensures Fuel(Apply(s, e)) <= Fuel(s) - 1
    ensures s.gets <= s.limit ==> Apply(s, e).gets <= Apply(s, e).limit
  {
  }

  lemma {:induction false} SumOfLengths(input: seq<seq<Prompt>>)
    ensures Sum(Lengths(input)) >= 0
  {
    if input != [] {
      SumOfLengths(input[1..]);
      assert Lengths(input)[1..] == Lengths(input[1..]);
    }
  }

  lemma {:induction false} RunBurns(states: seq<State>, events: seq<Event>, input: seq<seq<Prompt>>, shared: bool, k: nat)
    requires IsRun(states, events, input, shared) && k < |states|
    ensures k + Fuel(states[k]) <= 3 * Sum(Lengths(input)) + 1 && states[k].gets <= states[k].limit
  {
    if k == 0 {
      SumOfLengths(input);
    } else {
      RunBurns(states, events, input, shared, k - 1);
      StepBurns(states[k - 1], events[k - 1]);
    }
  }

  /** Every run, failures and timeouts included, is over after one get, start and end per prompt and one timeout. */
  lemma RunIsShort(states: seq<State>, events: seq<Event>, input: seq<seq<Prompt>>, shared: bool)
    requires IsRun(states, events, input, shared)
    ensures |events| <= 3 * Sum(Lengths(input)) + 1
  {
    RunBurns(states, events, input, shared, |events|);
  }

  lemma {:induction false} NeverTimesOut(states: seq<State>, events: seq<Event>, input: seq<seq<Prompt>>, shared: bool, k: nat)
    requires IsRun(states, events, input, shared) && k < |states| && FailureFree(events)
    ensures !states[k].aborted
  {
    if k > 0 { NeverTimesOut(states, events, input, shared, k - 1); }
  }

  /**
   A failure-free run gets stuck exactly when all its takes are made and all its tasks have ended: the concurrency
   limit and the re-queueing never lock each other out. As no run goes on for ever, each of them completes.
   */
  lemma StuckIffComplete(states: seq<State>, events: seq<Event>, input: seq<seq<Prompt>>, shared: bool, k: nat)
    requires IsRun(states, events, input, shared) && k < |states| && FailureFree(events)
    requires EmptyOnesLast(Effective(input, shared))
    ensures Stuck(states[k]) <==>
              states[k].gets >= states[k].limit && states[k].waiting == [] && states[k].running == []
  {
    var s := states[k];
    NeverTimesOut(states, events, input, shared, k);
    if Stuck(s) {
      assert !Enabled(s, Succeed(0, "", 0)) && !Enabled(s, Start(0));
      if s.gets < s.limit { NoStarvation(states, events, input, shared, k); }
    }
  }

  /**
   After `num_actual_requests` gets and the end of their tasks, every prompt of every conversation has
   been sent exactly once, in order, each followed by its answer.
   */
  lemma EveryPromptSentOnce(
      states: seq<State>, events: seq<Event>, input: seq<seq<Prompt>>, shared: bool, k: nat, c: nat)
    requires IsRun(states, events, input, shared) && k < |states| && FailureFree(events)
    requires EmptyOnesLast(Effective(input, shared)) && c < |Effective(input, shared)|
    requires states[k].gets == states[k].limit && states[k].waiting == [] && states[k].running == []
    ensures var texts, s := Effective(input, shared)[c], states[k];
      && |s.talks| == |Effective(input, shared)| && |s.talks[c].messages| == 2 * |texts|
      && forall i :: 0 <= i < |texts| ==>
           && s.talks[c].messages[2 * i] == Message(User, texts[i].content)
           && s.talks[c].messages[2 * i + 1].role == Assistant
  {
    var s, talks := states[k], Effective(input, shared);
    RunHealthy(states, events, input, shared, k);
    SentBelow(s, talks);
    assert TalkInv(s, c);
    assert Sent(s)[c] == |talks[c]| && Taken(s, c) == 0;
    assert |s.talks[c].messages| == 2 * |talks[c]|;
    forall i | 0 <= i < |talks[c]|
      ensures s.talks[c].messages[2 * i] == Message(User, talks[c][i].content)
      ensures s.talks[c].messages[2 * i + 1].role == Assistant
    {
      assert (2 * i) % 2 == 0 && (2 * i) / 2 == i && (2 * i + 1) % 2 == 1;
    }
  }

  /** What a task sends: the earlier prompts of its conversation, each with its answer, and then the next one. */
  lemma RequestIsHistoryAndPrompt(
      states: seq<State>, events: seq<Event>, input: seq<seq<Prompt>>, shared: bool, k: nat, task: nat)
    requires IsRun(states, events, input, shared) && k < |states| && task < |states[k].running|
    ensures var c := states[k].running[task];
      && c < |states[k].talks|
      && var talk := states[k].talks[c];
         && Alternates(talk) && talk.finished < |talk.prompts| && |talk.messages| == 2 * talk.finished + 1
  {
    var s := states[k];
    RunInv(states, events, input, shared, k);
    RunningHasPrompt(s, task, Effective(input, shared));
    OccurrencesMember(s.running, task);
    assert TalkInv(s, s.running[task]);
  }
}
