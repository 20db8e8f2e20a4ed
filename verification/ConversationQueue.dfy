/**
 The serving benchmark's conversation queue: conversations circulate through a bounded queue, each
 successful turn puts its own conversation back, and the generator takes as many as there are prompts.
 */
module ConversationQueue {
  import opened Sums

  datatype Prompt = Prompt(content: string, inputLen: int, outputLen: int)
  datatype Role = User | Assistant
  datatype Message = Message(role: Role, content: string)

  /** One conversation: its prompts, the messages exchanged so far and the number of finished prompts. */
  datatype Conversation = Conversation(prompts: seq<Prompt>, messages: seq<Message>, finished: nat)

  /**
   `queue`, `waiting` and `running` hold indices into `talks`: queued, taken but still before the
   concurrency limit, and awaiting the server. `permits` is that limit, `0` for none.
   */
  datatype State = State(
    talks: seq<Conversation>, queue: seq<nat>, waiting: seq<nat>, running: seq<nat>,
    bound: nat, limit: int, gets: nat, permits: nat, aborted: bool, crashed: bool, blocked: bool)

  datatype Event =
    | Get
    | Abort
    | Start(task: nat)
    | Succeed(task: nat, text: string, outputLen: int)
    | Fail(task: nat)

  /** With a shared prefix every prompt becomes a conversation of its own. */
  function Flatten(input: seq<seq<Prompt>>): seq<seq<Prompt>> {
    if input == [] then [] else Singletons(input[0]) + Flatten(input[1..])
  }

  function Singletons(prompts: seq<Prompt>): (r: seq<seq<Prompt>>)
    ensures |r| == |prompts|
  {
    seq(|prompts|, i requires 0 <= i < |prompts| => [prompts[i]])
  }

  function Lengths(input: seq<seq<Prompt>>): (r: seq<int>)
    ensures |r| == |input|
  {
    seq(|input|, i requires 0 <= i < |input| => |input[i]|)
  }

  ghost predicate IsInit(s: State, input: seq<seq<Prompt>>, sharedPrefix: bool) {
    var talks := if sharedPrefix then Flatten(input) else input;
    && |s.talks| == |talks| == |s.queue| == s.bound
    && (forall i :: 0 <= i < |talks| ==> s.talks[i] == Conversation(talks[i], [], 0) && s.queue[i] == i)
    && s.limit == Sum(Lengths(input))
    && s.waiting == [] && s.running == [] && s.gets == 0 && !s.aborted && !s.crashed && !s.blocked
  }

  ghost predicate Enabled(s: State, e: Event) {
    match e
    case Get => !s.aborted && s.gets < s.limit && s.queue != []
    case Abort => !s.aborted && s.gets < s.limit && s.queue == []
    case Start(k) => k < |s.waiting| && (s.permits == 0 || |s.running| < s.permits)
    case Succeed(k, _, _) => k < |s.running|
    case Fail(k) => k < |s.running|
  }

  function Apply(s: State, e: Event): State
    requires Enabled(s, e)
  {
    match e
    case Get => s.(queue := s.queue[1..], waiting := s.waiting + [s.queue[0]], gets := s.gets + 1)
    case Abort => s.(aborted := true)
    case Start(k) => Begin(s, k)
    case Succeed(k, text, outputLen) => Finish(s, k, text, outputLen)
    case Fail(k) => s.(running := RemoveAt(s.running, k))
  }

  /** The lookup of the next prompt succeeds. */
  predicate HasPrompt(s: State, c: nat) {
    c < |s.talks| && s.talks[c].finished < |s.talks[c].prompts|
  }

  /** A task enters its request: the next prompt becomes the last user message. */
  function Begin(s: State, k: nat): State
    requires k < |s.waiting|
  {
    var c := s.waiting[k];
    var t := s.(waiting := RemoveAt(s.waiting, k));
    if !HasPrompt(s, c) then t.(crashed := true)
    else
      var talk := s.talks[c];
      var asked := talk.messages + [Message(User, talk.prompts[talk.finished].content)];
      t.(running := s.running + [c], talks := s.talks[c := talk.(messages := asked)])
  }

  /** A good answer: it is recorded and the conversation goes back to the queue if prompts are left. */
  function Finish(s: State, k: nat, text: string, outputLen: int): State
    requires k < |s.running|
  {
    var c := s.running[k];
    var t := s.(running := RemoveAt(s.running, k));
    if !HasPrompt(s, c) then t.(crashed := true)
    else
      var talk := s.talks[c];
      var i := talk.finished;
      var prompts := talk.prompts[i := talk.prompts[i].(outputLen := outputLen)];
      var messages := talk.messages + [Message(Assistant, text)];
      if i + 1 < |talk.prompts| then
        var u := t.(talks := s.talks[c := Conversation(prompts, messages, i + 1)]);
        if |s.queue| < s.bound then u.(queue := s.queue + [c]) else u.(blocked := true)
      else t.(talks := s.talks[c := Conversation(prompts, messages, i)])
  }

  ghost predicate IsRun(states: seq<State>, events: seq<Event>, input: seq<seq<Prompt>>, shared: bool) {
    && |states| == |events| + 1
    && IsInit(states[0], input, shared)
    && forall k :: 0 <= k < |events| ==>
         Enabled(states[k], events[k]) && states[k + 1] == Apply(states[k], events[k])
  }

  // ---------- the number of prompts ----------

  lemma {:induction false} FlattenKeepsTotal(input: seq<seq<Prompt>>)
    ensures Sum(Lengths(Flatten(input))) == Sum(Lengths(input)) == |Flatten(input)|
    ensures forall i :: 0 <= i < |Flatten(input)| ==> |Flatten(input)[i]| == 1
  {
    if input != [] {
      var head, tail := Singletons(input[0]), Flatten(input[1..]);
      FlattenKeepsTotal(input[1..]);
      assert Lengths(input)[1..] == Lengths(input[1..]);
      assert Lengths(head + tail) == Lengths(head) + Lengths(tail);
      SumConcat(Lengths(head), Lengths(tail));
      SumOnes(Lengths(head));
    }
  }

  /** Where the flattening puts a prompt: behind those of all earlier conversations, in order. */
  lemma {:induction false} FlattenAt(input: seq<seq<Prompt>>, c: nat, i: nat)
    requires c < |input| && i < |input[c]|
    ensures 0 <= Sum(Lengths(input[..c])) + i < |Flatten(input)|
    ensures Flatten(input)[Sum(Lengths(input[..c])) + i] == [input[c][i]]
  {
    if c == 0 {
      assert Lengths(input[..0]) == [];
    } else {
      FlattenAt(input[1..], c - 1, i);
      assert Lengths(input[..c])[1..] == Lengths(input[1..][..c - 1]);
    }
  }

  lemma {:induction false} SumOnes(s: seq<int>)
    requires forall i :: 0 <= i < |s| ==> s[i] == 1
    ensures Sum(s) == |s|
  {
    if s != [] {
      SumOnes(s[1..]);
    }
  }
}
