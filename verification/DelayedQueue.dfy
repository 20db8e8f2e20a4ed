/**
 The queue of users that wait for their next round in the mixed workload: an insertion meant to keep the users
 sorted by start time, and a pop that looks at the head only. The insertion goes to the last index the search
 looked at, not to the index it computed, so a user later than all others lands before the last one.
 */
module DelayedQueue {
  import opened Wrappers
  import opened Sums

  datatype User = User(id: int, start: real)

  type Queue = seq<User>

  datatype Event = Put(user: User) | Take(now: real)

  ghost predicate Ordered(q: Queue) {
    forall i, j :: 0 <= i < j < |q| ==> q[i].start <= q[j].start
  }

  // ---------- the two operations ----------

  /** Where the search stops: at the first later user, or else at the last user. */
  function StopsAt(q: Queue, x: User, i: nat): (p: nat)
    requires i < |q|
    ensures i <= p < |q|
    ensures forall k :: i <= k < p ==> q[k].start <= x.start
    ensures x.start < q[p].start || p == |q| - 1
    decreases |q| - i
  {
    if x.start < q[i].start || i == |q| - 1 then i else StopsAt(q, x, i + 1)
  }

  function Enqueue(q: Queue, x: User): Queue {
    if q == [] then [x]
    else
      var p := StopsAt(q, x, 0);
      q[..p] + [x] + q[p..]
  }

  /** The head leaves when its start time has passed. */
  predicate Due(q: Queue, now: real) {
    q != [] && now > q[0].start
  }

  function Step(q: Queue, e: Event): Queue {
    match e
    case Put(x) => Enqueue(q, x)
    case Take(now) => if Due(q, now) then q[1..] else q
  }

  ghost predicate IsRun(states: seq<Queue>, events: seq<Event>) {
    && |states| == |events| + 1 && states[0] == []
    && forall k :: 0 <= k < |events| ==> states[k + 1] == Step(states[k], events[k])
  }

  class UserGenerator {
    var queue: Queue

    constructor ()
      ensures queue == []
    {
      queue := [];
    }

    method Push(x: User)
      modifies this
      ensures queue == Step(old(queue), Put(x))
    {
      if queue == [] {
        queue := [x];
      } else {
        var idx, k := 0, 0;
        while k < |queue|
          invariant 0 <= k <= |queue| && idx == if k == 0 then 0 else k - 1
          invariant k == |queue| ==> StopsAt(queue, x, 0) == idx
          invariant k < |queue| ==> StopsAt(queue, x, 0) == StopsAt(queue, x, k)
        {
          idx := k;
          if x.start < queue[k].start { break; }
          k := k + 1;
        }
        queue := queue[..idx] + [x] + queue[idx..];
      }
    }

    /** `None` makes the caller generate a new user. */
    method Pop(now: real) returns (r: Option<User>)
      modifies this
      ensures queue == Step(old(queue), Take(now))
      ensures r == if Due(old(queue), now) then Some(old(queue)[0]) else None
    {
      if queue != [] && now > queue[0].start {
        r := Some(queue[0]);
        queue := queue[1..];
      } else {
        r := None;
      }
    }
  }

  // ---------- what every run keeps ----------

  /** A user is neither lost nor doubled by its insertion. */
  lemma EnqueueAddsOne(q: Queue, x: User, u: User)
    ensures Occurrences(Enqueue(q, x), u) == Occurrences(q, u) + if u == x then 1 else 0
  {
    if q != [] {
      var p := StopsAt(q, x, 0);
      assert q == q[..p] + q[p..];
      OccurrencesConcat(q[..p], q[p..], u);
      OccurrencesConcat(q[..p] + [x], q[p..], u);
      OccurrencesPush(q[..p], x, u);
    } else {
      OccurrencesPush([], x, u);
      assert [] + [x] == [x];
    }
  }

  /** The last user never changes while the queue is not empty. */
  lemma StepKeepsLast(q: Queue, e: Event)
    requires q != [] && Step(q, e) != []
    ensures Step(q, e)[|Step(q, e)| - 1] == q[|q| - 1]
  {
  }

  lemma {:induction false} LastStays(states: seq<Queue>, events: seq<Event>, j: nat, k: nat)
    requires IsRun(states, events) && j <= k < |states|
    requires forall i :: j <= i <= k ==> states[i] != []
    ensures states[k][|states[k]| - 1] == states[j][|states[j]| - 1]
    decreases k - j
  {
    if j < k {
      assert states[j + 1] != [];
      StepKeepsLast(states[j], events[j]);
      LastStays(states, events, j + 1, k);
    }
  }

  /**
   The user that enters an empty queue leaves last: if the queue is empty again only after event `k`, that event
   takes this very user, however early it was due and however many users came and went in between.
   */
  lemma FirstInLeavesLast(states: seq<Queue>, events: seq<Event>, j: nat, k: nat, u: User)
    requires IsRun(states, events) && j <= k < |events| && states[j] == [u]
    requires (forall i :: j <= i <= k ==> states[i] != []) && states[k + 1] == []
    ensures events[k].Take? && states[k] == [u]
  {
    LastStays(states, events, j, k);
  }

  // ---------- when the queue is sorted ----------

  /** The only insertions that keep the order: into an empty queue, or not later than the last user. */
  predicate Fits(q: Queue, e: Event) {
    e.Put? && q != [] ==> e.user.start <= q[|q| - 1].start
  }

  lemma EnqueueOrderedIff(q: Queue, x: User)
    requires Ordered(q)
    ensures Ordered(Enqueue(q, x)) <==> Fits(q, Put(x))
  {
    if q != [] {
      var p := StopsAt(q, x, 0);
      var r := Enqueue(q, x);
      assert r[p] == x && r[|r| - 1] == q[|q| - 1] && p < |r| - 1;
    }
  }

  lemma StepOrderedIff(q: Queue, e: Event)
    requires Ordered(q)
    ensures Ordered(Step(q, e)) <==> Fits(q, e)
  {
    if e.Put? { EnqueueOrderedIff(q, e.user); }
  }

  lemma {:induction false} FitsMeansOrdered(states: seq<Queue>, events: seq<Event>, k: nat)
    requires IsRun(states, events) && k < |states|
    requires forall i :: 0 <= i < k ==> Fits(states[i], events[i])
    ensures Ordered(states[k])
  {
    if k > 0 {
      FitsMeansOrdered(states, events, k - 1);
      StepOrderedIff(states[k - 1], events[k - 1]);
    }
  }

  /** A run keeps its queue sorted exactly when every user inserted is not later than the last one waiting. */
  lemma SortedRunIff(states: seq<Queue>, events: seq<Event>)
    requires IsRun(states, events)
    ensures (forall k :: 0 <= k < |states| ==> Ordered(states[k])) <==>
            (forall k :: 0 <= k < |events| ==> Fits(states[k], events[k]))
  {
    if forall k :: 0 <= k < |events| ==> Fits(states[k], events[k]) {
      forall k | 0 <= k < |states| ensures Ordered(states[k]) { FitsMeansOrdered(states, events, k); }
    } else {
      var k :| 0 <= k < |events| && !Fits(states[k], events[k]);
      if Ordered(states[k]) {
        StepOrderedIff(states[k], events[k]);
        assert !Ordered(states[k + 1]);
      }
    }
  }

  /** In a sorted queue a pop fails only when nobody is due. */
  lemma SortedServesTheDue(q: Queue, now: real)
    requires Ordered(q)
    ensures Due(q, now) <==> exists i :: 0 <= i < |q| && now > q[i].start
  {
    if q != [] && now > q[0].start {
      assert 0 <= 0 < |q|;
    }
  }

  /** A later user inserted after an earlier one keeps the earlier one waiting although it is due. */
  lemma DueUserWaits()
    ensures var states := [[], [User(0, 5.0)], [User(1, 9.0), User(0, 5.0)], [User(1, 9.0), User(0, 5.0)]];
      IsRun(states, [Put(User(0, 5.0)), Put(User(1, 9.0)), Take(7.0)]) && !Due(states[2], 7.0)
  {
    assert StopsAt([User(0, 5.0)], User(1, 9.0), 0) == 0;
    assert Enqueue([User(0, 5.0)], User(1, 9.0)) == [User(1, 9.0), User(0, 5.0)];
  }
}
