/**
 The chat request of one replayed step: a system message, a sliding window of screenshot/response turns, and the
 current screenshot. Steps that have left the window survive as one line of text each.
 */
module ReplayMessages {
  import opened Arithmetic
  import opened Wrappers
  import opened SmartResize

  /** An executed step: its low-level instruction, the model's response, and the screenshot it saw. */
  datatype Step = Step(low: string, response: string, shot: string)

  datatype ActionLine = ActionLine(step: nat, low: string)

  /** The instruction prompt; an empty list of earlier actions is written "None". */
  datatype Text =
    | SystemPrompt(prompt: string)
    | InstructionPrompt(instruction: string, actions: seq<ActionLine>)
    | Response(text: string)

  datatype Part = Image(shot: string) | Words(text: Text)
  datatype Role = System | User | Assistant
  datatype Message = Message(role: Role, content: seq<Part>)

  // ---------- the message list ----------

  function Window(n: nat, j: nat): nat {
    if n < j then n else j
  }

  function ActionLines(steps: seq<Step>, k: nat): (r: seq<ActionLine>)
    requires k <= |steps|
    ensures |r| == k && forall i :: 0 <= i < k ==> r[i] == ActionLine(i + 1, steps[i].low)
  {
    seq(k, i requires 0 <= i < k => ActionLine(i + 1, steps[i].low))
  }

  /** The screenshot message of history entry `k`; the first one carries the instruction. */
  function Shown(shot: string, k: nat, instruction: Text): Message {
    Message(User, if k == 0 then [Image(shot), Words(instruction)] else [Image(shot)])
  }

  /** The first `k` turns of the window. */
  function Turns(window: seq<Step>, k: nat, instruction: Text): (r: seq<Message>)
    requires k <= |window|
    ensures |r| == 2 * k
  {
    if k == 0 then []
    else
      Turns(window, k - 1, instruction) +
      [Shown(window[k - 1].shot, k - 1, instruction), Message(Assistant, [Words(Response(window[k - 1].response))])]
  }

  /** The messages sent after `steps`, with `shot` on the screen. */
  function Messages(system: string, instruction: string, n: nat, steps: seq<Step>, shot: string): (r: seq<Message>)
    ensures |r| == 2 * Window(n, |steps|) + 2
  {
    var h := Window(n, |steps|);
    var start := |steps| - h;
    var prompt := InstructionPrompt(instruction, ActionLines(steps, start));
    [Message(System, [Words(SystemPrompt(system))])] + Turns(steps[start..], h, prompt) + [Shown(shot, h, prompt)]
  }

  /** The turns of the window, appended one after the other. */
  method AppendTurns(head: seq<Message>, shots: seq<string>, responses: seq<string>, prompt: Text, ghost window: seq<Step>)
      returns (messages: seq<Message>)
    requires |shots| == |responses| == |window|
    requires forall i :: 0 <= i < |window| ==> window[i].shot == shots[i] && window[i].response == responses[i]
    ensures messages == head + Turns(window, |window|, prompt)
  {
    messages := head;
    var k := 0;
    while k < |shots|
      invariant 0 <= k <= |shots|
      invariant messages == head + Turns(window, k, prompt)
    {
      var content := [Image(shots[k])];
      if k == 0 {
        content := content + [Words(prompt)];
      }
      var shown, said := Message(User, content), Message(Assistant, [Words(Response(responses[k]))]);
      assert shown == Shown(window[k].shot, k, prompt);
      assert Turns(window, k + 1, prompt) == Turns(window, k, prompt) + [shown, said];
      assert head + (Turns(window, k, prompt) + [shown, said]) == messages + [shown] + [said];
      messages := messages + [shown];
      messages := messages + [said];
      k := k + 1;
    }
  }

  /** The earlier steps as the three parallel lists the builder is given. */
  ghost function Steps(lows: seq<string>, responses: seq<string>, shots: seq<string>): (r: seq<Step>)
    requires |lows| == |responses| == |shots|
    ensures |r| == |lows|
    ensures forall i :: 0 <= i < |r| ==> r[i] == Step(lows[i], responses[i], shots[i])
  {
    seq(|lows|, i requires 0 <= i < |lows| => Step(lows[i], responses[i], shots[i]))
  }

  /** The builder; a negative window makes it look for an earlier step that does not exist. */
  method BuildMessages(
      system: string, instruction: string, n: int, lows: seq<string>, responses: seq<string>, shots: seq<string>,
      shot: string) returns (ok: bool, messages: seq<Message>)
    requires |lows| == |responses| == |shots|
    ensures ok <==> n >= 0
    ensures ok ==> messages == Messages(system, instruction, n, Steps(lows, responses, shots), shot)
  {
    var j := |lows|;
    ghost var steps := Steps(lows, responses, shots);
    var start := Max(0, j - n);
    var actions := [];
    while |actions| < start
      invariant |actions| <= start && |actions| <= j && actions == ActionLines(steps, |actions|)
    {
      if |actions| >= |lows| {
        return false, [];
      }
      actions := actions + [ActionLine(|actions| + 1, lows[|actions|])];
    }
    ok := true;
    messages := BuildTurns(system, instruction, n, actions, responses, shots, shot, steps);
  }

  /** The messages, once the text lines of the earlier steps are there. */
  method BuildTurns(
      system: string, instruction: string, n: nat, actions: seq<ActionLine>, responses: seq<string>, shots: seq<string>,
      shot: string, ghost steps: seq<Step>) returns (messages: seq<Message>)
    requires |responses| == |shots| == |steps|
    requires forall i :: 0 <= i < |steps| ==> steps[i].shot == shots[i] && steps[i].response == responses[i]
    requires actions == ActionLines(steps, |steps| - Window(n, |steps|))
    ensures messages == Messages(system, instruction, n, steps, shot)
  {
    var j := |shots|;
    var prompt := InstructionPrompt(instruction, actions);
    messages := [Message(System, [Words(SystemPrompt(system))])];
    var h := Min(n, j);
    if h > 0 {
      messages := AppendTurns(messages, shots[j - h..], responses[j - h..], prompt, steps[j - h..]);
      messages := messages + [Message(User, [Image(shot)])];
    } else {
      messages := messages + [Message(User, [Image(shot), Words(prompt)])];
    }
  }

  // ---------- what the list contains ----------

  lemma {:induction false} TurnAt(window: seq<Step>, k: nat, instruction: Text, i: nat)
    requires i < k <= |window|
    ensures Turns(window, k, instruction)[2 * i] == Shown(window[i].shot, i, instruction)
    ensures Turns(window, k, instruction)[2 * i + 1] == Message(Assistant, [Words(Response(window[i].response))])
  {
    if i < k - 1 { TurnAt(window, k - 1, instruction, i); }
  }

  /**
   Every earlier step appears exactly once: the steps before the window as the text lines, in order and
   numbered from 1, and step `i` of the window as the pair of messages `1 + 2(i - start)` and `2 + 2(i - start)`.
   The instruction is in the first screenshot message and in no other.
   */
  lemma EveryStepOnce(system: string, instruction: string, n: nat, steps: seq<Step>, shot: string, i: nat)
    requires i < |steps|
    ensures var m, start := Messages(system, instruction, n, steps, shot), |steps| - Window(n, |steps|);
      var prompt := InstructionPrompt(instruction, ActionLines(steps, start));
      && |m| == 2 + 2 * (|steps| - start)
      && m[0] == Message(System, [Words(SystemPrompt(system))])
      && (i >= start ==>
            && m[1 + 2 * (i - start)] == Shown(steps[i].shot, i - start, prompt)
            && m[2 + 2 * (i - start)] == Message(Assistant, [Words(Response(steps[i].response))]))
      && (i < start ==> prompt.actions[i] == ActionLine(i + 1, steps[i].low))
      && |prompt.actions| == start
      && m[|m| - 1] == Shown(shot, |steps| - start, prompt)
  {
    var h := Window(n, |steps|);
    var start := |steps| - h;
    var prompt := InstructionPrompt(instruction, ActionLines(steps, start));
    if i >= start {
      TurnAt(steps[start..], h, prompt, i - start);
    }
  }

  ghost predicate RolesAlternate(m: seq<Message>) {
    && m != [] && m[0].role == System
    && forall k :: 1 <= k < |m| ==> m[k].role == if k % 2 == 1 then User else Assistant
  }

  lemma {:induction false} TurnRoles(window: seq<Step>, k: nat, instruction: Text, i: nat)
    requires k <= |window| && i < 2 * k
    ensures Turns(window, k, instruction)[i].role == if i % 2 == 0 then User else Assistant
  {
    if i < 2 * (k - 1) { TurnRoles(window, k - 1, instruction, i); }
  }

  lemma FramedAlternates(first: Message, turns: seq<Message>, last: Message)
    requires first.role == System && last.role == User && |turns| % 2 == 0
    requires forall i :: 0 <= i < |turns| ==> turns[i].role == if i % 2 == 0 then User else Assistant
    ensures RolesAlternate([first] + turns + [last])
  {
    var m := [first] + turns + [last];
    forall k | 1 <= k < |m| ensures m[k].role == if k % 2 == 1 then User else Assistant {
      if k < |m| - 1 { assert m[k] == turns[k - 1]; }
    }
  }

  /** After the system message the roles alternate, user first and user last. */
  lemma Alternation(system: string, instruction: string, n: nat, steps: seq<Step>, shot: string)
    ensures RolesAlternate(Messages(system, instruction, n, steps, shot))
  {
    var m, h := Messages(system, instruction, n, steps, shot), Window(n, |steps|);
    var start := |steps| - h;
    var prompt := InstructionPrompt(instruction, ActionLines(steps, start));
    var turns := Turns(steps[start..], h, prompt);
    forall i | 0 <= i < |turns| ensures turns[i].role == if i % 2 == 0 then User else Assistant {
      TurnRoles(steps[start..], h, prompt, i);
    }
    FramedAlternates(m[0], turns, m[|m| - 1]);
  }

  /** The parts of a message list that satisfy `p`. */
  function CountParts(m: seq<Message>, images: bool): nat {
    if m == [] then 0
    else CountParts(m[..|m| - 1], images) + CountIn(m[|m| - 1].content, images)
  }

  /** Images, or else instruction prompts. */
  function CountIn(parts: seq<Part>, images: bool): nat {
    if parts == [] then 0
    else
      var p := parts[|parts| - 1];
      CountIn(parts[..|parts| - 1], images) +
      if (images && p.Image?) || (!images && p.Words? && p.text.InstructionPrompt?) then 1 else 0
  }

  lemma CountLast(m: seq<Message>, x: Message, images: bool)
    ensures CountParts(m + [x], images) == CountParts(m, images) + CountIn(x.content, images)
  {
    assert (m + [x])[..|m|] == m;
  }

  lemma CountSmall(shot: string, t: Text)
    ensures CountIn([Image(shot)], true) == 1 && CountIn([Image(shot)], false) == 0
    ensures CountIn([Words(t)], true) == 0 && CountIn([Words(t)], false) == if t.InstructionPrompt? then 1 else 0
    ensures CountIn([Image(shot), Words(t)], true) == 1
    ensures CountIn([Image(shot), Words(t)], false) == if t.InstructionPrompt? then 1 else 0
  {
    assert [Image(shot)][..0] == [] && [Words(t)][..0] == [];
    assert [Image(shot), Words(t)][..1] == [Image(shot)];
  }

  lemma {:induction false} CountTurns(head: seq<Message>, window: seq<Step>, k: nat, prompt: Text, images: bool)
    requires k <= |window| && prompt.InstructionPrompt?
    ensures CountParts(head + Turns(window, k, prompt), images) ==
              CountParts(head, images) + if images then k else if k > 0 then 1 else 0
  {
    if k == 0 {
      assert head + Turns(window, k, prompt) == head;
    } else {
      CountTurns(head, window, k - 1, prompt, images);
      CountTurn(head + Turns(window, k - 1, prompt), window[k - 1], k - 1, prompt, images);
      LastTurn(head, window, k, prompt);
    }
  }

  lemma LastTurn(head: seq<Message>, window: seq<Step>, k: nat, prompt: Text)
    requires 0 < k <= |window|
    ensures head + Turns(window, k, prompt) == WithTurn(head + Turns(window, k - 1, prompt), window[k - 1], k - 1, prompt)
  {
    var s, before := window[k - 1], Turns(window, k - 1, prompt);
    var shown, said := Shown(s.shot, k - 1, prompt), Message(Assistant, [Words(Response(s.response))]);
    assert head + (before + [shown, said]) == head + before + [shown] + [said];
  }

  /** One turn more. */
  function WithTurn(before: seq<Message>, s: Step, k: nat, prompt: Text): seq<Message> {
    before + [Shown(s.shot, k, prompt)] + [Message(Assistant, [Words(Response(s.response))])]
  }

  lemma CountTurn(before: seq<Message>, s: Step, k: nat, prompt: Text, images: bool)
    requires prompt.InstructionPrompt?
    ensures CountParts(WithTurn(before, s, k, prompt), images) ==
              CountParts(before, images) + if images then 1 else if k == 0 then 1 else 0
  {
    var shown, said := Shown(s.shot, k, prompt), Message(Assistant, [Words(Response(s.response))]);
    CountLast(before, shown, images);
    CountLast(before + [shown], said, images);
    CountSmall(s.shot, prompt);
    CountSmall(s.shot, Response(s.response));
  }

  /** There are `min(history_n, j) + 1` images and exactly one instruction. */
  lemma ImagesAndInstruction(system: string, instruction: string, n: nat, steps: seq<Step>, shot: string)
    ensures CountParts(Messages(system, instruction, n, steps, shot), true) == Window(n, |steps|) + 1
    ensures CountParts(Messages(system, instruction, n, steps, shot), false) == 1
  {
    var h := Window(n, |steps|);
    var start := |steps| - h;
    var prompt := InstructionPrompt(instruction, ActionLines(steps, start));
    var head := [Message(System, [Words(SystemPrompt(system))])];
    forall images: bool
      ensures CountParts(Messages(system, instruction, n, steps, shot), images) == if images then h + 1 else 1
    {
      CountTurns(head, steps[start..], h, prompt, images);
      CountLast(head + Turns(steps[start..], h, prompt), Shown(shot, h, prompt), images);
      CountLast([], head[0], images);
      assert [] + [head[0]] == head;
      CountSmall(shot, prompt);
      CountSmall(shot, SystemPrompt(system));
    }
  }

  // ---------- consecutive requests ----------

  /** The request of step `j` of a task: the steps before it, and the screenshot it saw. */
  function RequestOf(system: string, instruction: string, n: nat, task: seq<Step>, j: nat): seq<Message>
    requires j < |task|
  {
    Messages(system, instruction, n, task[..j], task[j].shot)
  }

  lemma {:induction false} TurnsPrefix(a: seq<Step>, b: seq<Step>, k: nat, instruction: Text)
    requires k <= |a| && k <= |b| && a[..k] == b[..k]
    ensures Turns(a, k, instruction) == Turns(b, k, instruction)
  {
    if k > 0 {
      assert a[k - 1] == a[..k][k - 1] == b[..k][k - 1] == b[k - 1];
      assert a[..k - 1] == a[..k][..k - 1] == b[..k][..k - 1] == b[..k - 1];
      TurnsPrefix(a, b, k - 1, instruction);
    }
  }

  /**
   A request properly extends the one before it exactly while the window still holds every earlier step;
   from then on the prefix a server could reuse is lost.
   */
  lemma ExtendsIff(system: string, instruction: string, n: nat, task: seq<Step>, j: nat)
    requires j + 1 < |task|
    ensures RequestOf(system, instruction, n, task, j) < RequestOf(system, instruction, n, task, j + 1) <==> j < n
  {
    var a, b := RequestOf(system, instruction, n, task, j), RequestOf(system, instruction, n, task, j + 1);
    if j < n {
      var prompt := InstructionPrompt(instruction, []);
      var now, next := task[..j], task[..j + 1];
      assert ActionLines(now, 0) == [] && ActionLines(next, 0) == [];
      assert now[0..] == now && next[0..] == next;
      TurnsPrefix(now, next, j, prompt);
      assert next[j] == task[j];
      var head := [Message(System, [Words(SystemPrompt(system))])];
      assert a == head + Turns(next, j, prompt) + [Shown(task[j].shot, j, prompt)];
      assert b == head + Turns(next, j + 1, prompt) + [Shown(task[j + 1].shot, j + 1, prompt)];
      assert b[..|a|] == a;
    }
  }

  /** A request costs at most `(history_n + 1) * 12802` image tokens. */
  lemma RequestTokens(
      system: string, instruction: string, n: nat, steps: seq<Step>, shot: string, height: int, width: int)
    requires GoodSize(height, width)
    ensures CountParts(Messages(system, instruction, n, steps, shot), true) * ImageTokens(width, height) <= (n + 1) * 12802
  {
    ImagesAndInstruction(system, instruction, n, steps, shot);
    TokensOfGoodSize(height, width);
    var count, tokens := Window(n, |steps|) + 1, ImageTokens(width, height);
    ProductOrderBoth(count, n + 1, tokens, 12802);
  }
}
