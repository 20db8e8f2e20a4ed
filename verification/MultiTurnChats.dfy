/** Chat histories in OpenAI mode: when user and assistant messages alternate. */
module MultiTurnChats {
  import opened Sums
  import opened MultiTurn
  import opened MultiTurnInvariants
  import opened MultiTurnSafety
  import opened MultiTurnTheorems

  /** User, assistant, user, and so on. */
  ghost predicate Alternates(h: History) {
    forall i :: 0 <= i < |h| ==> h[i].Message? && h[i].role == if i % 2 == 0 then User else Assistant
  }

  /** The handler turn at state `s` is a success of client `c` with no text, and a follow-up question comes after it. */
  ghost predicate Blank(s: State, e: Event, c: nat) {
    && Hears(s, e, c) && s.answers[0].body.text == ""
    && c < |s.records| && s.records[c].round + 1 < s.records[c].total
  }

  ghost predicate NeverBlank(states: seq<State>, events: seq<Event>, k: nat, c: nat)
    requires k <= |events| <= |states|
  {
    forall j :: 0 <= j < k ==> !Blank(states[j], events[j], c)
  }

  /** An alternating chat with rounds left holds both messages of every past round and one open question. */
  ghost predicate ChatIs(rec: Record, clean: bool) {
    && (clean <==> Alternates(rec.history))
    && (clean && rec.round < rec.total ==> |rec.history| == 2 * rec.round + 1)
  }

  lemma BrokenStays(h: History, more: History)
    requires !Alternates(h)
    ensures !Alternates(h + more)
  {
    var i :| 0 <= i < |h| && !(h[i].Message? && h[i].role == if i % 2 == 0 then User else Assistant);
    assert (h + more)[i] == h[i];
  }

  lemma TurnAlternates(h: History, said: string, asked: string)
    requires Alternates(h) && |h| % 2 == 1
    ensures Alternates(h + [Message(Assistant, said)])
    ensures Alternates(h + [Message(Assistant, said)] + [Message(User, asked)])
    ensures !Alternates(h + [] + [Message(User, asked)])
  {
    assert (h + [] + [Message(User, asked)])[|h|] == Message(User, asked);
  }

  lemma ChatTurn(s: State, clean: bool)
    requires Succeeds(s) && s.cfg.format.OpenAI?
    requires var c := s.answers[0].client; ChatIs(s.records[c], clean) && s.records[c].round < s.records[c].total
    ensures var c := s.answers[0].client;
      ChatIs(HandleAnswer(s).records[c], clean && !Blank(s, Handle, c))
  {
    var c := s.answers[0].client;
    var rec, said := s.records[c], s.answers[0].body.text;
    var h := rec.history;
    AdvanceRecord(s);
    var more := Said(OpenAI, s.answers[0].body);
    if clean {
      assert h + [] == h;
      if rec.round + 1 < rec.total {
        TurnAlternates(h, said, s.stock[|s.stock| - 1].text);
      } else {
        TurnAlternates(h, said, "");
      }
    } else {
      BrokenStays(h, more);
      if rec.round + 1 < rec.total { BrokenStays(h + more, Ask(OpenAI, s.stock[|s.stock| - 1])); }
    }
  }

  lemma {:induction false} RunChat(states: seq<State>, events: seq<Event>, k: nat, c: nat, first: Sample)
    requires IsRun(states, events) && k <= |events| && states[0].cfg.format.OpenAI?
    requires c < |states[0].records| && states[0].records[c].history == Ask(OpenAI, first)
    ensures states[k].cfg == states[0].cfg && c < |states[k].records|
    ensures ChatIs(states[k].records[c], NeverBlank(states, events, k, c))
  {
    if k > 0 {
      RunChat(states, events, k - 1, c, first);
      RunInv(states, events, k - 1);
      var s, e := states[k - 1], events[k - 1];
      var clean := NeverBlank(states, events, k - 1, c);
      StepHistory(s, e, c);
      ConfigStays(s, e);
      assert NeverBlank(states, events, k, c) == (clean && !Blank(s, e, c));
      if Hears(s, e, c) {
        NoFault(s);
        AnsweredAlone(s);
        ChatTurn(s, clean);
      }
    }
  }

  /**
   In OpenAI mode the history of a client alternates between user and assistant exactly as long as
   no success with an empty text has been followed by a question, and then every request of the
   client that is queued or in flight carries the two messages of each past round and one new question.
   */
  lemma ChatAlternates(states: seq<State>, events: seq<Event>, k: nat, c: nat, first: Sample)
    requires IsRun(states, events) && k <= |events| && states[0].cfg.format.OpenAI?
    requires c < |states[0].records| && states[0].records[c].history == Ask(OpenAI, first)
    ensures c < |states[k].records|
    ensures Alternates(states[k].records[c].history) <==> NeverBlank(states, events, k, c)
    ensures NeverBlank(states, events, k, c) ==>
              forall q :: q in states[k].ready + states[k].flight + states[k].parked && q.client == c ==>
                Alternates(q.body.prompt) && |q.body.prompt| == 2 * states[k].records[c].round + 1
  {
    RunChat(states, events, k, c, first);
    RunInv(states, events, k);
    var s := states[k];
    forall q | q in s.ready + s.flight + s.parked && q.client == c
      ensures s.records[c].round < s.records[c].total && q.body.prompt == s.records[c].history
    {
      QueuedIsLive(s, q);
    }
  }

  lemma QueuedIsLive(s: State, q: Request)
    requires Inv(s) && q in s.ready + s.flight + s.parked
    ensures Unfinished(s, q.client) && q.body.prompt == s.records[q.client].history
  {
    if q in s.ready { MemberCounts(s.ready, q); }
    if q in s.flight { MemberCounts(s.flight, q); }
    if q in s.parked { MemberCounts(s.parked, q); }
  }

  lemma MemberCounts(items: seq<Request>, q: Request)
    requires q in items
    ensures Count(items, q.client) > 0
  {
    var k :| 0 <= k < |items| && items[k] == q;
    CountMember(items, k);
  }

  /** One client of two rounds, its first request ready. */
  function OneClient(hello: string, q: Sample): State {
    var records := [Record(0, [Message(User, hello)], 2)];
    State(Config(OpenAI, Fifo, false, 1, 2, seq(2, r => CountAbove(Totals(records), r))), 0, 0, 0, false, false,
          [Item(0, Payload([Message(User, hello)], 8))], [], [], records, [q], [], 0, 0)
  }

  lemma OneClientIsInit(hello: string, q: Sample)
    ensures IsInit(OneClient(hello, q))
  {
    assert FollowUps(OneClient(hello, q).records) == [1];
    assert Sum([1]) == 1;
  }

  /** The only client of `s` has asked `hello`, and its first answer, without text, waits for the handler. */
  lemma EmptyAnswerTurn(s: State, hello: string, q: Sample)
    requires s.answers == [Item(0, Response(true, [], ""))] && s.stock == [q] && s.cfg.format.OpenAI? && !s.cfg.barrier
    requires s.records == [Record(0, [Message(User, hello)], 2)]
    ensures HandleAnswer(s).records == [Record(1, [Message(User, hello), Message(User, q.text)], 2)]
  {
    assert [Message(User, hello)] + [] + [Message(User, q.text)] == [Message(User, hello), Message(User, q.text)];
  }

  /** A run that loses the alternation: the first of two answers of the only client has no text. */
  lemma EmptyAnswerBreaksTheChat(hello: string, q: Sample) returns (states: seq<State>)
    ensures IsRun(states, [Admit, Pop(0), Reply(0, Response(true, [], ""), true), Handle])
    ensures states[4].records == [Record(1, [Message(User, hello), Message(User, q.text)], 2)]
    ensures !Alternates(states[4].records[0].history)
  {
    var s0 := OneClient(hello, q);
    OneClientIsInit(hello, q);
    var s1 := Apply(s0, Admit);
    var s2 := Apply(s1, Pop(0));
    assert s2.flight == s0.ready;
    var s3 := Apply(s2, Reply(0, Response(true, [], ""), true));
    var s4 := Apply(s3, Handle);
    EmptyAnswerTurn(s3, hello, q);
    states := [s0, s1, s2, s3, s4];
    assert s4.records[0].history[1] == Message(User, q.text);
  }
}
