/** The serving benchmark as an object whose methods update its fields, proved against the events. */
module Serving {
  import opened Sums
  import opened ConversationQueue
  import opened ConversationTheorems

  class ServingBenchmark {
    var talks: seq<Conversation>
    var queue: seq<nat>
    var waiting: seq<nat>
    var running: seq<nat>
    const bound: nat
    const limit: int
    const permits: nat
    var gets: nat
    var aborted: bool
    var crashed: bool
    var blocked: bool
    ghost const input: seq<seq<Prompt>>

    ghost function View(): State
      reads this
    {
      State(talks, queue, waiting, running, bound, limit, gets, permits, aborted, crashed, blocked)
    }

    ghost predicate Valid()
      reads this
    {
      Inv(View(), input)
    }

    /** Every conversation is queued once; the bound is their number and the limit that of the prompts. */
    constructor (requests: seq<seq<Prompt>>, sharedPrefix: bool, permits: nat)
      ensures Valid() && IsInit(View(), requests, sharedPrefix) && input == Effective(requests, sharedPrefix)
    {
      var all := if sharedPrefix then Flatten(requests) else requests;
      var n := |all|;
      talks := seq(n, i requires 0 <= i < n => Conversation(all[i], [], 0));
      queue := seq(n, i => i);
      waiting, running, gets := [], [], 0;
      aborted, crashed, blocked := false, false, false;
      bound, limit := n, Sum(Lengths(requests));
      this.permits := permits;
      input := Effective(requests, sharedPrefix);
      new;
      InitInv(View(), requests, sharedPrefix);
    }

    /** Take the next conversation and create its task; an empty queue times out. */
    method TakeRequest()
      requires Valid() && !aborted && gets < limit
      modifies this`queue, this`waiting, this`gets, this`aborted
      ensures Valid()
      ensures View() == Apply(old(View()), if old(queue) == [] then Abort else Get)
    {
      ghost var before := View();
      if queue == [] {
        aborted := true;
        StepInv(before, Abort, input);
      } else {
        waiting := waiting + [queue[0]];
        queue := queue[1..];
        gets := gets + 1;
        StepInv(before, Get, input);
      }
    }

    /** Task `k` passes the concurrency limit and sends its next prompt. */
    method BeginTask(k: nat)
      requires Valid() && k < |waiting| && (permits == 0 || |running| < permits)
      modifies this`waiting, this`running, this`talks, this`crashed
      ensures Valid() && View() == Apply(old(View()), Start(k))
    {
      StepInv(View(), Start(k), input);
      var c := waiting[k];
      waiting := waiting[..k] + waiting[k + 1..];
      if c >= |talks| || talks[c].finished >= |talks[c].prompts| {
        crashed := true;
        return;
      }
      var talk := talks[c];
      var asked := talk.messages + [Message(User, talk.prompts[talk.finished].content)];
      talks := talks[c := talk.(messages := asked)];
      running := running + [c];
    }

    /** Task `k` has its answer; it never waits for room in the queue. */
    method EndTask(k: nat, text: string, outputLen: int)
      requires Valid() && k < |running|
      modifies this`queue, this`running, this`talks
      ensures Valid() && View() == Apply(old(View()), Succeed(k, text, outputLen))
    {
      StepInv(View(), Succeed(k, text, outputLen), input);
      RunningHasPrompt(View(), k, input);
      var c := running[k];
      running := running[..k] + running[k + 1..];
      var talk := talks[c];
      var i := talk.finished;
      var prompts := talk.prompts[i := talk.prompts[i].(outputLen := outputLen)];
      var messages := talk.messages + [Message(Assistant, text)];
      if i + 1 < |prompts| {
        talks := talks[c := Conversation(prompts, messages, i + 1)];
        queue := queue + [c];
      } else {
        talks := talks[c := Conversation(prompts, messages, i)];
      }
    }

    /** Task `k` failed: its conversation is dropped. */
    method DropTask(k: nat)
      requires Valid() && k < |running|
      modifies this`running
      ensures Valid() && View() == Apply(old(View()), Fail(k))
    {
      StepInv(View(), Fail(k), input);
      running := running[..k] + running[k + 1..];
    }
  }
}
