/** The workload generator as an object whose methods update its fields, proved against the events. */
module Workload {
  import opened Wrappers
  import opened Sums
  import opened MultiTurn
  import opened MultiTurnInvariants
  import opened MultiTurnSafety

  /** The ready queue: appended at the back, popped at the front or at a random index. */
  class ReadyQueue {
    var requests: seq<Request>
    const policy: Policy

    constructor (init: seq<Request>, policy: Policy)
      ensures requests == init && this.policy == policy
    {
      requests := init;
      this.policy := policy;
    }

    method Append(item: Request)
      modifies this
      ensures requests == old(requests) + [item]
    {
      requests := requests + [item];
    }

    /** `index` is the position that was taken. */
    method Pop() returns (r: Option<Request>, ghost index: nat)
      modifies this
      ensures r.None? <==> old(requests) == []
      ensures r.None? ==> requests == old(requests)
      ensures r.Some? ==>
                && index < |old(requests)| && (policy.Fifo? ==> index == 0)
                && r.value == old(requests)[index] && requests == RemoveAt(old(requests), index)
    {
      index := 0;
      if requests == [] {
        return None, 0;
      }
      var i := 0;
      if policy.Random? {
        i :| 0 <= i < |requests|;
      }
      r, index := Some(requests[i]), i;
      requests := requests[..i] + requests[i + 1..];
    }
  }

  class WorkloadGenerator {
    const cfg: Config
    const readyQueue: ReadyQueue
    var sent: int
    var completed: int
    var shown: int
    var admitted: bool
    var crashed: bool
    var flight: seq<Request>
    var answers: seq<Answer>
    var records: seq<Record>
    var stock: seq<Sample>
    var parked: seq<Request>
    var barrierRound: nat
    var barrierDone: int

    ghost function View(): State
      reads this, readyQueue
    {
      State(cfg, sent, completed, shown, admitted, crashed, readyQueue.requests, flight, answers, records,
            stock, parked, barrierRound, barrierDone)
    }

    ghost predicate Valid()
      reads this, readyQueue
    {
      Inv(View()) && readyQueue.policy == cfg.policy
    }

    /** `totals` are the resolved round counts; `first` and `stock` are what the sampler returned. */
    constructor (format: Format, policy: Policy, barrier: bool, maxParallel: int, maxRounds: nat,
                 totals: seq<nat>, first: seq<Sample>, stock: seq<Sample>)
      requires |first| == |totals|
      requires forall i :: 0 <= i < |totals| ==> 1 <= totals[i] <= maxRounds
      requires |stock| == Max(Sum(seq(|totals|, i requires 0 <= i < |totals| => totals[i] - 1)), 1)
      ensures IsInit(View()) && Valid() && fresh(readyQueue)
      ensures cfg.barrier == barrier && cfg.maxParallel == maxParallel && cfg.format == format && cfg.policy == policy
      ensures cfg.maxRounds == maxRounds && this.stock == stock && |records| == |totals|
      ensures forall i :: 0 <= i < |totals| ==>
                && records[i] == Record(0, Ask(format, first[i]), totals[i])
                && readyQueue.requests[i].body == Payload(Ask(format, first[i]), first[i].outputLen)
    {
      var n := |totals|;
      var recs := seq(n, i requires 0 <= i < n => Record(0, Ask(format, first[i]), totals[i]));
      var perRound := seq(maxRounds, r => CountAbove(Totals(recs), r));
      this.cfg := Config(format, policy, barrier, maxParallel, maxRounds, perRound);
      this.readyQueue := new ReadyQueue(
        seq(n, i requires 0 <= i < n => Item(i, Payload(Ask(format, first[i]), first[i].outputLen))), policy);
      this.sent, this.completed, this.shown, this.admitted, this.crashed := 0, 0, 0, false, false;
      this.flight, this.answers, this.parked := [], [], [];
      this.records, this.stock := recs, stock;
      this.barrierRound, this.barrierDone := 0, 0;
      new;
      assert FollowUps(recs) == seq(|totals|, i requires 0 <= i < |totals| => totals[i] - 1);
      InitInv(View());
    }

    /** The sender's parallelism test. */
    method TestParallelism()
      requires Valid() && !admitted
      modifies this`admitted
      ensures Valid()
      ensures View() == if Enabled(old(View()), Admit) then Apply(old(View()), Admit) else old(View())
    {
      ghost var before := View();
      if sent - completed < cfg.maxParallel {
        admitted := true;
        StepInv(before, Admit);
      }
    }

    /** The sender's pop after the test: the request, if any, becomes a task. */
    method PopAndSend() returns (ghost e: Event)
      requires Valid() && admitted
      modifies this`admitted, this`flight, this`sent, readyQueue
      ensures Valid() && Enabled(old(View()), e) && View() == Apply(old(View()), e)
      ensures e.Pop? || e.PopEmpty?
    {
      ghost var before := View();
      var r, k := readyQueue.Pop();
      e := PopEmpty;
      if r.Some? {
        flight := flight + [r.value];
        sent := sent + 1;
        e := Pop(k);
      }
      admitted := false;
      assert View() == Apply(before, e);
      StepInv(before, e);
    }

    /** The end of task `k`: a response, or an exception turned into a failed one. */
    method FinishTask(k: nat, response: Response, counted: bool)
      requires Valid() && k < |flight| && (response.success ==> counted)
      modifies this`flight, this`answers, this`shown
      ensures Valid() && View() == Apply(old(View()), Reply(k, response, counted))
    {
      ghost var before := View();
      answers := answers + [Item(flight[k].client, response)];
      flight := flight[..k] + flight[k + 1..];
      if counted {
        shown := shown + 1;
      }
      assert View() == Apply(before, Reply(k, response, counted));
      StepInv(before, Reply(k, response, counted));
    }

    /** One turn of the response handler. */
    method HandleResponse()
      requires Valid() && answers != []
      modifies this`answers, this`completed, this`records, this`stock, this`parked,
               this`barrierRound, this`barrierDone, readyQueue
      ensures Valid() && View() == Apply(old(View()), Handle)
    {
      ghost var before := View();
      NoFault(before);
      StepInv(before, Handle);
      if !answers[0].body.success {
        answers := answers[1..];
        completed := completed + 1;
        return;
      }
      RecordAnswer();
      if cfg.barrier && barrierRound < cfg.maxRounds {
        CountBarrier();
      }
    }

    /** Extend the client's history, take it one round further and prepare its next request. */
    method RecordAnswer()
      requires Succeeds(View())
      modifies this`answers, this`completed, this`records, this`stock, this`parked, readyQueue
      ensures View() == Advance(old(View()))
    {
      var client, response := answers[0].client, answers[0].body;
      answers := answers[1..];
      var history := records[client].history + Said(cfg.format, response);
      var round, total := records[client].round + 1, records[client].total;
      completed := completed + 1;
      if round < total {
        var q := stock[|stock| - 1];
        stock := stock[..|stock| - 1];
        history := history + Ask(cfg.format, q);
        var request := Item(client, Payload(history, q.outputLen));
        if cfg.barrier {
          parked := parked + [request];
        } else {
          readyQueue.Append(request);
        }
      }
      records := records[client := Record(round, history, total)];
    }

    /** When the round is full, the parked requests are appended to the ready queue one by one. */
    method CountBarrier()
      requires barrierRound < |cfg.perRound|
      modifies this`barrierRound, this`barrierDone, this`parked, readyQueue
      ensures View() == Tally(old(View()))
    {
      barrierDone := barrierDone + 1;
      if barrierDone == cfg.perRound[barrierRound] {
        var i := 0;
        while i < |parked|
          invariant 0 <= i <= |parked|
          invariant readyQueue.requests == old(readyQueue.requests) + parked[..i]
          modifies readyQueue
        {
          readyQueue.Append(parked[i]);
          i := i + 1;
        }
        assert parked[..i] == parked;
        parked := [];
        barrierRound := barrierRound + 1;
        barrierDone := 0;
      }
    }
  }
}
