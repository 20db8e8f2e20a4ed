/**
 The multi-turn workload generator: a sender thread, the requests in flight and a response
 handler thread that share a ready queue, an answer queue, the client records, a stock of
 follow-up questions and an optional round barrier.

 A state is a value and every atomic action of a thread or of the network is an event, so that
 a run is a list of events and the theorems range over all runs.
 */
module MultiTurn {
  import opened Sums

  datatype Result<+T> = Ok(value: T) | Error

  datatype Format = SGLang | OpenAI
  datatype Policy = Random | Fifo
  datatype Role = User | Assistant

  /** One entry of a history: a token id in SGLang mode, a chat message in OpenAI mode. */
  datatype Piece = Token(id: int) | Message(role: Role, text: string)

  type History = seq<Piece>

  /** What the queues hold: a client id with a payload on the way out, with a response on the way back. */
  datatype Item<+T> = Item(client: nat, body: T)

  datatype Payload = Payload(prompt: History, outputLen: int)

  datatype Response = Response(success: bool, outputIds: seq<int>, text: string)

  type Request = Item<Payload>

  type Answer = Item<Response>

  datatype Record = Record(round: nat, history: History, total: nat)

  /** A sampled prompt: its token ids, their decoding, and the output length to ask for. */
  datatype Sample = Sample(ids: seq<int>, text: string, outputLen: int)

  datatype Config = Config(
    format: Format, policy: Policy, barrier: bool, maxParallel: int, maxRounds: nat, perRound: seq<int>)

  /** `admitted` is the sender between its parallelism test and its pop; `shown` is the progress bar. */
  datatype State = State(
    cfg: Config, sent: int, completed: int, shown: int, admitted: bool, crashed: bool,
    ready: seq<Request>, flight: seq<Request>, answers: seq<Answer>, records: seq<Record>,
    stock: seq<Sample>, parked: seq<Request>, barrierRound: nat, barrierDone: int)

  datatype Event =
    | Admit
    | Pop(index: nat)
    | PopEmpty
    | Reply(task: nat, response: Response, counted: bool)
    | Handle

  // ---------- construction ----------

  /** The round range asked for on the command line, `0` meaning "not given". */
  function ResolveRounds(numRounds: int, minRounds: int, maxRounds: int): (r: Result<(int, int)>)
    ensures r.Ok? ==> 1 <= r.value.0 <= r.value.1
    ensures minRounds != 0 && maxRounds != 0 ==>
              if 1 <= minRounds <= maxRounds then r == Ok((minRounds, maxRounds)) else r == Error
    ensures minRounds == 0 || maxRounds == 0 ==>
              var both := if minRounds != 0 then minRounds else if maxRounds != 0 then maxRounds else numRounds;
              if both >= 1 then r == Ok((both, both)) else r == Error
  {
    var lo := if minRounds == 0 then (if maxRounds == 0 then numRounds else maxRounds) else minRounds;
    var hi := if maxRounds == 0 then (if minRounds == 0 then numRounds else minRounds) else maxRounds;
    if lo < 1 || lo > hi then Error else Ok((lo, hi))
  }

  /** How many clients take part in round `r`. */
  function CountAbove(totals: seq<int>, r: int): int {
    if totals == [] then 0 else (if totals[0] > r then 1 else 0) + CountAbove(totals[1..], r)
  }

  function Totals(records: seq<Record>): (t: seq<int>)
    ensures |t| == |records|
  {
    seq(|records|, i requires 0 <= i < |records| => records[i].total)
  }

  function FollowUps(records: seq<Record>): (t: seq<int>)
    ensures |t| == |records|
  {
    seq(|records|, i requires 0 <= i < |records| => if records[i].total > 1 then records[i].total - 1 else 0)
  }

  /** A sampled prompt as the history of its client. */
  function Ask(format: Format, q: Sample): History {
    match format
    case SGLang => Tokens(q.ids)
    case OpenAI => [Message(User, q.text)]
  }

  function Tokens(ids: seq<int>): (h: History)
    ensures |h| == |ids|
  {
    seq(|ids|, i requires 0 <= i < |ids| => Token(ids[i]))
  }

  /** What an answer adds to the history. */
  function Said(format: Format, r: Response): History {
    match format
    case SGLang => Tokens(r.outputIds)
    case OpenAI => if r.text != "" then [Message(Assistant, r.text)] else []
  }

  // ---------- the events ----------

  ghost predicate Enabled(s: State, e: Event) {
    match e
    case Admit => !s.admitted && s.sent - s.completed < s.cfg.maxParallel
    case Pop(k) => s.admitted && k < |s.ready| && (s.cfg.policy.Fifo? ==> k == 0)
    case PopEmpty => s.admitted && s.ready == []
    case Reply(k, response, counted) => k < |s.flight| && (response.success ==> counted)
    case Handle => !s.crashed && s.answers != []
  }

  function Apply(s: State, e: Event): State
    requires Enabled(s, e)
  {
    match e
    case Admit => s.(admitted := true)
    case Pop(k) => s.(ready := RemoveAt(s.ready, k), flight := s.flight + [s.ready[k]],
                      sent := s.sent + 1, admitted := false)
    case PopEmpty => s.(admitted := false)
    case Reply(k, response, counted) =>
      s.(flight := RemoveAt(s.flight, k),
         answers := s.answers + [Item(s.flight[k].client, response)],
         shown := s.shown + if counted then 1 else 0)
    case Handle => HandleAnswer(s)
  }

  /** The lookups of one handler turn that would end the handler thread. */
  predicate Faults(s: State)
    requires s.answers != []
  {
    var c := s.answers[0].client;
    s.answers[0].body.success &&
    (|| c >= |s.records|
     || (s.cfg.barrier && s.records[c].round >= s.cfg.maxRounds)
     || (s.records[c].round + 1 < s.records[c].total && s.stock == [])
     || (s.cfg.barrier && s.barrierRound < s.cfg.maxRounds && s.barrierRound >= |s.cfg.perRound|))
  }

  /** One turn of the response handler. */
  function HandleAnswer(s: State): State
    requires s.answers != []
  {
    if Faults(s) then s.(crashed := true)
    else if !s.answers[0].body.success then
      s.(answers := s.answers[1..], completed := s.completed + 1)
    else if s.cfg.barrier && s.barrierRound < s.cfg.maxRounds then Tally(Advance(s))
    else Advance(s)
  }

  /** The record of the answered client, and its next request if it has rounds left. */
  function Advance(s: State): State
    requires s.answers != [] && s.answers[0].body.success && !Faults(s)
  {
    var c := s.answers[0].client;
    var record := s.records[c];
    var heard := record.history + Said(s.cfg.format, s.answers[0].body);
    var t := s.(answers := s.answers[1..], completed := s.completed + 1);
    if record.round + 1 < record.total then
      var q := s.stock[|s.stock| - 1];
      var prompt := heard + Ask(s.cfg.format, q);
      var req := Item(c, Payload(prompt, q.outputLen));
      t.(records := s.records[c := Record(record.round + 1, prompt, record.total)],
         stock := s.stock[..|s.stock| - 1],
         ready := if s.cfg.barrier then s.ready else s.ready + [req],
         parked := if s.cfg.barrier then s.parked + [req] else s.parked)
    else
      t.(records := s.records[c := Record(record.round + 1, heard, record.total)])
  }

  /** The barrier: count one completion and release the parked requests when the round is full. */
  function Tally(s: State): State
    requires s.barrierRound < |s.cfg.perRound|
  {
    var done := s.barrierDone + 1;
    if done == s.cfg.perRound[s.barrierRound] then
      s.(ready := s.ready + s.parked, parked := [], barrierRound := s.barrierRound + 1, barrierDone := 0)
    else
      s.(barrierDone := done)
  }
}
