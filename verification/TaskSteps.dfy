/** Recorded steps of a task: grouping the trajectory lines by step number and aligning them with the log. */
module TaskSteps {
  import opened Wrappers
  import opened RuntimeLog

  /** A trajectory line: the executed action and its screenshot. */
  datatype Record = Record(step: int, action: string, shot: string)

  datatype Group = Group(step: int, records: seq<Record>)

  datatype Step = Step(step: int, actions: seq<string>, shots: seq<string>, response: string, low: string)

  /** How the alignment loop ends: it may also raise an index error. */
  datatype Outcome = Aligned | Truncated | Crashed

  // ---------- grouping ----------

  /** The records of one step, in order. */
  function OfStep(records: seq<Record>, step: int): seq<Record> {
    if records == [] then []
    else
      var front, r := records[..|records| - 1], records[|records| - 1];
      if r.step == step then OfStep(front, step) + [r] else OfStep(front, step)
  }

  /** The position of a step's group, or the number of groups. */
  function Find(groups: seq<Group>, step: int, i: nat): (k: nat)
    requires i <= |groups|
    ensures i <= k <= |groups|
    ensures k < |groups| ==> groups[k].step == step
    ensures forall j :: i <= j < k ==> groups[j].step != step
    decreases |groups| - i
  {
    if i == |groups| || groups[i].step == step then i else Find(groups, step, i + 1)
  }

  /** Where a step first appears, or the number of records. */
  ghost function First(records: seq<Record>, step: int, i: nat): (k: nat)
    requires i <= |records|
    ensures i <= k <= |records|
    ensures k < |records| ==> records[k].step == step
    ensures forall j :: i <= j < k ==> records[j].step != step
    decreases |records| - i
  {
    if i == |records| || records[i].step == step then i else First(records, step, i + 1)
  }

  lemma FirstStays(records: seq<Record>, r: Record, step: int)
    ensures First(records, step, 0) < |records| || r.step == step ==>
              First(records + [r], step, 0) == First(records, step, 0)
  {
    var all, k := records + [r], First(records + [r], step, 0);
    if k < |records| { assert all[k] == records[k]; }
    var f := First(records, step, 0);
    if f < |records| { assert all[f] == records[f]; }
    else if r.step == step { assert all[|records|] == r; }
  }

  /** Every group holds all records of its step, in order. */
  ghost predicate Full(groups: seq<Group>, records: seq<Record>) {
    forall k :: 0 <= k < |groups| ==> groups[k].records == OfStep(records, groups[k].step) != []
  }

  /** Groups come in the order in which their steps first appear; in particular their steps differ. */
  ghost predicate Ordered(groups: seq<Group>, records: seq<Record>) {
    && (forall k :: 0 <= k < |groups| ==> First(records, groups[k].step, 0) < |records|)
    && (forall j, k :: 0 <= j < k < |groups| ==> First(records, groups[j].step, 0) < First(records, groups[k].step, 0))
  }

  /** Every record has a group. */
  ghost predicate Complete(groups: seq<Group>, records: seq<Record>) {
    forall i :: 0 <= i < |records| ==> Find(groups, records[i].step, 0) < |groups|
  }

  ghost predicate GroupsOf(groups: seq<Group>, records: seq<Record>) {
    Full(groups, records) && Ordered(groups, records) && Complete(groups, records)
  }

  lemma OfStepPush(records: seq<Record>, r: Record, step: int)
    ensures OfStep(records + [r], step) == if r.step == step then OfStep(records, step) + [r] else OfStep(records, step)
  {
    assert (records + [r])[..|records|] == records;
  }

  lemma {:induction false} OfStepEmpty(records: seq<Record>, step: int)
    requires forall i :: 0 <= i < |records| ==> records[i].step != step
    ensures OfStep(records, step) == []
  {
    if records != [] {
      assert records[|records| - 1].step != step;
      OfStepEmpty(records[..|records| - 1], step);
    }
  }

  lemma FindStays(was: seq<Group>, now: seq<Group>, step: int)
    requires |was| <= |now| && forall k :: 0 <= k < |was| ==> now[k].step == was[k].step
    requires Find(was, step, 0) < |was|
    ensures Find(now, step, 0) < |now|
  {
    assert now[Find(was, step, 0)].step == step;
  }

  /** Groups in the order in which their steps first appear. */
  method GroupRecords(records: seq<Record>) returns (groups: seq<Group>)
    ensures GroupsOf(groups, records)
  {
    groups := [];
    ghost var seen: seq<Record> := [];
    var i := 0;
    while i < |records|
      invariant 0 <= i <= |records| && seen == records[..i]
      invariant GroupsOf(groups, seen)
    {
      groups := AddRecord(groups, records[i], seen);
      seen := seen + [records[i]];
      i := i + 1;
    }
    assert seen == records;
  }

  /** `groups.setdefault(step, []).append(record)`. */
  method AddRecord(was: seq<Group>, r: Record, ghost before: seq<Record>) returns (groups: seq<Group>)
    requires GroupsOf(was, before)
    ensures GroupsOf(groups, before + [r])
  {
    var k := Find(was, r.step, 0);
    if k == |was| {
      groups := was + [Group(r.step, [r])];
    } else {
      groups := was[k := Group(r.step, was[k].records + [r])];
    }
    StayFull(was, groups, r, before);
    StayOrdered(was, groups, r, before);
    StayComplete(was, groups, r, before);
  }

  /** `now` is `was` with the record added to its group, which may be new. */
  ghost predicate Added(was: seq<Group>, now: seq<Group>, r: Record) {
    var k := Find(was, r.step, 0);
    if k == |was| then now == was + [Group(r.step, [r])]
    else now == was[k := Group(r.step, was[k].records + [r])]
  }

  lemma StayFull(was: seq<Group>, now: seq<Group>, r: Record, before: seq<Record>)
    requires Full(was, before) && Ordered(was, before) && Complete(was, before) && Added(was, now, r)
    ensures Full(now, before + [r])
  {
    var k := Find(was, r.step, 0);
    if k == |was| { NewStep(was, r, before); }
    forall j | 0 <= j < |now| ensures now[j].records == OfStep(before + [r], now[j].step) != [] {
      OfStepPush(before, r, now[j].step);
      if j < |was| && j != k { assert was[j].step != r.step by { OtherStep(was, before, r.step, j); } }
    }
  }

  lemma OtherStep(groups: seq<Group>, before: seq<Record>, step: int, j: nat)
    requires Ordered(groups, before) && j < |groups| && j != Find(groups, step, 0)
    ensures groups[j].step != step
  {
    var k := Find(groups, step, 0);
    if k < j { assert First(before, groups[k].step, 0) < First(before, groups[j].step, 0); }
  }

  lemma StayOrdered(was: seq<Group>, now: seq<Group>, r: Record, before: seq<Record>)
    requires Ordered(was, before) && Complete(was, before) && Added(was, now, r)
    ensures Ordered(now, before + [r])
  {
    if Find(was, r.step, 0) == |was| { NewStep(was, r, before); }
    forall j | 0 <= j < |now|
      ensures First(before + [r], now[j].step, 0) == First(before, now[j].step, 0)
      ensures j < |was| ==> now[j].step == was[j].step
    {
      FirstStays(before, r, now[j].step);
    }
  }

  lemma StayComplete(was: seq<Group>, now: seq<Group>, r: Record, before: seq<Record>)
    requires Complete(was, before) && Added(was, now, r)
    ensures Complete(now, before + [r])
  {
    forall i | 0 <= i < |before| + 1 ensures Find(now, (before + [r])[i].step, 0) < |now| {
      if i < |before| {
        FindStays(was, now, before[i].step);
      } else {
        assert now[Find(was, r.step, 0)].step == r.step;
      }
    }
  }

  lemma NewStep(groups: seq<Group>, r: Record, before: seq<Record>)
    requires Complete(groups, before) && Find(groups, r.step, 0) == |groups|
    ensures OfStep(before, r.step) == [] && First(before, r.step, 0) == |before|
  {
    forall i | 0 <= i < |before| ensures before[i].step != r.step {
      assert Find(groups, before[i].step, 0) < |groups|;
    }
    OfStepEmpty(before, r.step);
  }

  // ---------- alignment ----------

  function Actions(g: Group): seq<string> {
    seq(|g.records|, i requires 0 <= i < |g.records| => g.records[i].action)
  }

  function Shots(g: Group): seq<string> {
    seq(|g.records|, i requires 0 <= i < |g.records| => g.records[i].shot)
  }

  /** `blocks[step - 1]` with Python's indexing, which counts from the back below zero. */
  function Lookup(blocks: seq<Block>, step: int): Option<Block> {
    if 1 <= step <= |blocks| then Some(blocks[step - 1])
    else if -|blocks| <= step - 1 < 0 then Some(blocks[|blocks| + step - 1])
    else None
  }

  /** The step's block exists and its code is the list of executed actions. */
  predicate Matches(g: Group, blocks: seq<Block>) {
    var b := Lookup(blocks, g.step);
    b.Some? && b.value.code == Some(Actions(g))
  }

  /**
   The exact reach of the index rule: a step number is accepted from `1 - n` to `n` for `n` blocks, its block is
   `step - 1` counted round the list, and that is block `step - 1` from the front exactly for the 1-based numbers.
   */
  lemma MatchExact(g: Group, blocks: seq<Block>)
    ensures Lookup(blocks, g.step).Some? <==> 1 - |blocks| <= g.step <= |blocks| && blocks != []
    ensures Matches(g, blocks) <==>
              && 1 - |blocks| <= g.step <= |blocks| && blocks != []
              && blocks[(g.step - 1) % |blocks|].code == Some(Actions(g))
    ensures blocks != [] && 1 - |blocks| <= g.step <= |blocks| ==>
              ((g.step - 1) % |blocks| == g.step - 1 <==> g.step >= 1)
  {
    if blocks != [] && 1 - |blocks| <= g.step <= |blocks| {
      CountedRound(g.step - 1, |blocks|);
    }
  }

  lemma CountedRound(i: int, n: nat)
    requires n > 0 && 0 <= i + n && i < n
    ensures i % n == if i >= 0 then i else i + n
  {
    if i < 0 { assert i == (-1) * n + (i + n); }
  }

  function MakeStep(g: Group, blocks: seq<Block>, lowLevel: (string, string) -> string): Step
    requires Matches(g, blocks)
  {
    var b := Lookup(blocks, g.step).value;
    Step(g.step, Actions(g), Shots(g), b.response, lowLevel(b.response, if b.low.Some? then b.low.value else ""))
  }

  /** Step `s` is what group `g` and its block record. */
  ghost predicate Records(s: Step, g: Group, blocks: seq<Block>, lowLevel: (string, string) -> string) {
    && Matches(g, blocks) && s.step == g.step
    && |s.actions| == |s.shots| == |g.records|
    && (forall i :: 0 <= i < |g.records| ==> s.actions[i] == g.records[i].action && s.shots[i] == g.records[i].shot)
    && var b := Lookup(blocks, g.step).value;
       b.code == Some(s.actions) && s.response == b.response &&
       s.low == lowLevel(b.response, if b.low.Some? then b.low.value else "")
  }

  ghost predicate StepsOf(steps: seq<Step>, groups: seq<Group>, blocks: seq<Block>, lowLevel: (string, string) -> string) {
    |steps| <= |groups| && forall i :: 0 <= i < |steps| ==> Records(steps[i], groups[i], blocks, lowLevel)
  }

  /**
   The alignment loop keeps exactly the longest prefix of groups whose actions equal their block's code,
   and notes why it stopped; it raises only for a step number below the first block counted from the back.
   */
  method Align(groups: seq<Group>, blocks: seq<Block>, lowLevel: (string, string) -> string)
      returns (steps: seq<Step>, outcome: Outcome)
    ensures StepsOf(steps, groups, blocks, lowLevel)
    ensures |steps| < |groups| ==> !Matches(groups[|steps|], blocks)
    ensures outcome == Aligned <==> |steps| == |groups|
    ensures outcome == Crashed <==> |steps| < |groups| && groups[|steps|].step - 1 < -|blocks|
  {
    steps := [];
    var i := 0;
    while i < |groups|
      invariant 0 <= i == |steps| <= |groups| && StepsOf(steps, groups, blocks, lowLevel)
    {
      var g := groups[i];
      if g.step - 1 >= |blocks| {
        return steps, Truncated;
      }
      if g.step - 1 < -|blocks| {
        return steps, Crashed;
      }
      var b := blocks[if g.step >= 1 then g.step - 1 else |blocks| + g.step - 1];
      if b.code != Some(Actions(g)) {
        return steps, Truncated;
      }
      steps := steps + [MakeStep(g, blocks, lowLevel)];
      i := i + 1;
    }
    outcome := Aligned;
  }
}
