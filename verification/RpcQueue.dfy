/**
 Remote calls from the parent server to its child processes, and the choice of the
 child that renders a configuration. Callers, queues and child threads interleave
 freely: the system is a transition relation, and a queue may even be read out of
 order. Shutdown is not a step of it.
 */
module RpcQueue {
  import opened Common

  /** The name of a child process, and where a listener accepts connections. */
  type Child = string
  type Address = string
  type CallId = int

  datatype Request = Request(name: string, args: seq<string>)

  /** Python's None, or what the method returned. */
  datatype Reply = NoReply | Reply(value: string)

  /** One `rpc` call in the parent; its listener is open until it has a result. */
  datatype Call = Call(dest: Child, request: Request, address: Address, stage: Stage)
  datatype Stage = Opened | Sent | Accepted | Returned(reply: Reply) | Raised

  /**
   A message on a child's queue, and then the thread that the child starts for it. No address:
   no answer is wanted.
   */
  datatype Job =
    | Queued(child: Child, address: Option<Address>, request: Request)
    | Running(child: Child, address: Option<Address>, request: Request)
    | Finished(child: Child, address: Option<Address>, request: Request, reply: Reply)

  datatype Computation = Computation(child: Child, request: Request, reply: Reply)

  /** `answers` is what lies in the connection to a listener: a reply, or the end of the stream after an exception. */
  datatype State = State(
    calls: map<CallId, Call>, jobs: multiset<Job>, answers: map<Address, Option<Reply>>, computed: set<Computation>)

  predicate IsOpen(c: Call) { c.stage.Opened? || c.stage.Sent? || c.stage.Accepted? }
  predicate Waiting(c: Call) { c.stage.Sent? || c.stage.Accepted? }

  ghost predicate Init(s: State)
  {
    s == State(map[], multiset{}, map[], {})
  }

  datatype Step =
    | Open(id: CallId, dest: Child, request: Request, address: Address)
    | Put(id: CallId)
    | Publish(child: Child, request: Request)
    | StartThread(job: Job)
    | Compute(job: Job, reply: Reply)
    | Crash(job: Job)
    | Answer(job: Job)
    | Accept(id: CallId)
    | Receive(id: CallId)

  ghost predicate HasListener(s: State, address: Address)
  {
    exists id :: id in s.calls && IsOpen(s.calls[id]) && s.calls[id].address == address
  }

  /** A reply to an address goes into its connection; without an address it goes nowhere. */
  function Deliver(answers: map<Address, Option<Reply>>, address: Option<Address>, answer: Option<Reply>):
    map<Address, Option<Reply>>
  {
    if address.Some? then answers[address.value := answer] else answers
  }

  /**
   What a child can be asked for: the plugins' methods, and its own attributes with their
   `exposed`, if they have it.
   */
  datatype Methods = Methods(rmi: set<string>, attributes: map<string, Option<bool>>)

  datatype Found = Func | NoFunc | RaisesError

  /**
   The dispatcher's look-up: a name with a dot is a plugin's method, any other one an attribute
   that must be exposed.
   */
  function LookUp(methods: Methods, name: string): Found
  {
    if '.' in name then (if name in methods.rmi then Func else NoFunc)
    else if name !in methods.attributes then NoFunc
    else match methods.attributes[name]
      case None => RaisesError
      case Some(exposed) => if exposed then Func else NoFunc
  }

  /** A function may return anything; without one the answer is None. */
  ghost predicate MayReply(methods: Methods, request: Request, reply: Reply)
  {
    match LookUp(methods, request.name)
    case Func => true
    case NoFunc => reply == NoReply
    case RaisesError => false
  }

  ghost predicate Enabled(methods: Methods, s: State, step: Step)
  {
    match step
    case Open(id, dest, request, address) => id !in s.calls && !HasListener(s, address)
    case Put(id) => id in s.calls && s.calls[id].stage.Opened?
    case Publish(child, request) => true
    case StartThread(job) => job in s.jobs && job.Queued? && (job.address.Some? ==> HasListener(s, job.address.value))
    case Compute(job, reply) => job in s.jobs && job.Running? && MayReply(methods, job.request, reply)
    case Crash(job) => job in s.jobs && job.Running? && LookUp(methods, job.request.name) != NoFunc
    case Answer(job) => job in s.jobs && job.Finished?
    case Accept(id) => id in s.calls && s.calls[id].stage.Sent?
    case Receive(id) => id in s.calls && s.calls[id].stage.Accepted? && s.calls[id].address in s.answers
  }

  ghost function After(methods: Methods, s: State, step: Step): State
    requires Enabled(methods, s, step)
  {
    match step
    case Open(id, dest, request, address) =>
      s.(calls := s.calls[id := Call(dest, request, address, Opened)])
    case Put(id) =>
      var c := s.calls[id];
      s.(calls := s.calls[id := c.(stage := Sent)],
        jobs := s.jobs + multiset{Queued(c.dest, Some(c.address), c.request)})
    case Publish(child, request) =>
      s.(jobs := s.jobs + multiset{Queued(child, None, request)})
    case StartThread(job) =>
      s.(jobs := s.jobs - multiset{job} + multiset{Running(job.child, job.address, job.request)})
    case Compute(job, reply) =>
      s.(jobs := s.jobs - multiset{job} + multiset{Finished(job.child, job.address, job.request, reply)},
         computed := s.computed + {Computation(job.child, job.request, reply)})
    case Crash(job) =>
      s.(jobs := s.jobs - multiset{job}, answers := Deliver(s.answers, job.address, None))
    case Answer(job) =>
      s.(jobs := s.jobs - multiset{job}, answers := Deliver(s.answers, job.address, Some(job.reply)))
    case Accept(id) =>
      s.(calls := s.calls[id := s.calls[id].(stage := Accepted)])
    case Receive(id) =>
      var c := s.calls[id];
      var result := match s.answers[c.address] case Some(r) => Returned(r) case None => Raised;
      s.(calls := s.calls[id := c.(stage := result)], answers := s.answers - {c.address})
  }

  // ---------- the invariant ----------

  ghost predicate WaitsFor(s: State, id: CallId, address: Address)
  {
    id in s.calls && Waiting(s.calls[id]) && s.calls[id].address == address
  }

  /** Open listeners have different addresses. */
  ghost predicate AddressesDiffer(s: State)
  {
    forall id, id' | id in s.calls && id' in s.calls && IsOpen(s.calls[id]) && IsOpen(s.calls[id']) ::
      s.calls[id].address == s.calls[id'].address ==> id == id'
  }

  /** Some call waits at the address, for that child to answer that very request. */
  ghost predicate Wanted(s: State, child: Child, address: Address, request: Request)
  {
    exists id :: WaitsFor(s, id, address) && s.calls[id].dest == child && s.calls[id].request == request
  }

  /** Some call waits at the address, and the reply, if it is one, was computed for it. */
  ghost predicate Owned(s: State, address: Address, answer: Option<Reply>)
  {
    exists id :: WaitsFor(s, id, address) && (answer.Some? ==> Honest(s, id, answer.value))
  }

  /** A job that wants an answer belongs to a waiting call, to that child, with that very request. */
  ghost predicate JobsBelong(s: State)
  {
    forall j :: j in s.jobs && j.address.Some? ==> Wanted(s, j.child, j.address.value, j.request)
  }

  /** No two jobs answer to the same address, and none to an address that has its answer. */
  ghost predicate OneAnswer(s: State)
  {
    && (forall j, k :: j in s.jobs && k in s.jobs && j.address.Some? && j.address == k.address ==> j == k)
    && (forall j :: j in s.jobs && j.address.Some? ==> s.jobs[j] == 1 && j.address.value !in s.answers)
  }

  ghost predicate Honest(s: State, id: CallId, reply: Reply)
    requires id in s.calls
  {
    Computation(s.calls[id].dest, s.calls[id].request, reply) in s.computed
  }

  /** Whatever lies in a connection was computed for the call that waits there. */
  ghost predicate AnswersBelong(s: State)
  {
    forall a :: a in s.answers ==> Owned(s, a, s.answers[a])
  }

  ghost predicate ResultsHonest(s: State)
  {
    && (forall j :: j in s.jobs && j.Finished? ==> Computation(j.child, j.request, j.reply) in s.computed)
    && (forall id :: id in s.calls && s.calls[id].stage.Returned? ==> Honest(s, id, s.calls[id].stage.reply))
  }

  /** No call is forgotten: there is a job for it, or its answer is in the connection. */
  ghost predicate NoneForgotten(s: State)
  {
    forall id :: id in s.calls && Waiting(s.calls[id]) ==>
      s.calls[id].address in s.answers || exists j :: j in s.jobs && j.address == Some(s.calls[id].address)
  }

  ghost predicate Inv(s: State)
  {
    AddressesDiffer(s) && JobsBelong(s) && OneAnswer(s) && AnswersBelong(s) && ResultsHonest(s) && NoneForgotten(s)
  }

  /**
   A step that leaves the waiting calls as they are, except at one address, and forgets no
   computation, leaves them their jobs and answers.
   */
  lemma CarryOver(s: State, s': State, gone: Option<Address>)
    requires forall id, a :: WaitsFor(s, id, a) && gone != Some(a) ==>
      WaitsFor(s', id, a) && s'.calls[id].dest == s.calls[id].dest && s'.calls[id].request == s.calls[id].request
    requires s.computed <= s'.computed
    ensures forall c, a, r :: Wanted(s, c, a, r) && gone != Some(a) ==> Wanted(s', c, a, r)
    ensures forall a, r :: Owned(s, a, r) && gone != Some(a) ==> Owned(s', a, r)
  {
    forall c, a, r | Wanted(s, c, a, r) && gone != Some(a) ensures Wanted(s', c, a, r) {
      var id :| WaitsFor(s, id, a) && s.calls[id].dest == c && s.calls[id].request == r;
      assert WaitsFor(s', id, a);
    }
    forall a, r | Owned(s, a, r) && gone != Some(a) ensures Owned(s', a, r) {
      var id :| WaitsFor(s, id, a) && (r.Some? ==> Honest(s, id, r.value));
      assert WaitsFor(s', id, a);
    }
  }

  lemma NoJobAtAnswered(s: State, a: Address)
    requires OneAnswer(s) && a in s.answers
    ensures forall j :: j in s.jobs ==> j.address != Some(a)
  {
  }

  lemma OpenKeepsInv(methods: Methods, s: State, id: CallId, dest: Child, request: Request, address: Address)
    requires Inv(s) && Enabled(methods, s, Open(id, dest, request, address))
    ensures Inv(After(methods, s, Open(id, dest, request, address)))
  {
    var s' := After(methods, s, Open(id, dest, request, address));
    CarryOver(s, s', None);
    hide Wanted, Owned, WaitsFor;
    assert AddressesDiffer(s') && ResultsHonest(s') by { hide JobsBelong, OneAnswer, AnswersBelong, NoneForgotten; }
    assert JobsBelong(s') && OneAnswer(s') by { hide AddressesDiffer, ResultsHonest, AnswersBelong, NoneForgotten; }
    assert AnswersBelong(s') && NoneForgotten(s') by { hide AddressesDiffer, ResultsHonest, JobsBelong, OneAnswer; }
    hide AddressesDiffer, ResultsHonest, JobsBelong, OneAnswer, AnswersBelong, NoneForgotten;
  }

  /** Nothing is on its way to a listener whose request has not been sent. */
  lemma NothingForUnsent(s: State, id: CallId)
    requires Inv(s) && id in s.calls && s.calls[id].stage.Opened?
    ensures s.calls[id].address !in s.answers && forall j :: j in s.jobs ==> j.address != Some(s.calls[id].address)
  {
    var a := s.calls[id].address;
    hide OneAnswer, ResultsHonest, NoneForgotten;
    assert forall other :: !WaitsFor(s, other, a);
    assert forall child, request :: !Wanted(s, child, a, request);
    assert forall answer :: !Owned(s, a, answer);
  }

  lemma PutKeepsInv(methods: Methods, s: State, id: CallId)
    requires Inv(s) && Enabled(methods, s, Put(id))
    ensures Inv(After(methods, s, Put(id)))
  {
    PutKeepsJobs(methods, s, id);
    PutKeepsAnswers(methods, s, id);
    hide Wanted, Owned, OneAnswer, AnswersBelong, NoneForgotten, JobsBelong;
  }

  lemma PutKeepsJobs(methods: Methods, s: State, id: CallId)
    requires Inv(s) && Enabled(methods, s, Put(id))
    ensures JobsBelong(After(methods, s, Put(id))) && OneAnswer(After(methods, s, Put(id)))
  {
    var c := s.calls[id];
    var s' := After(methods, s, Put(id));
    NothingForUnsent(s, id);
    CarryOver(s, s', None);
    assert WaitsFor(s', id, c.address);
    assert Wanted(s', c.dest, c.address, c.request);
    hide Wanted, Owned, AnswersBelong, NoneForgotten, AddressesDiffer, ResultsHonest, WaitsFor;
  }

  lemma PutKeepsAnswers(methods: Methods, s: State, id: CallId)
    requires Inv(s) && Enabled(methods, s, Put(id))
    ensures AnswersBelong(After(methods, s, Put(id))) && NoneForgotten(After(methods, s, Put(id)))
  {
    var s' := After(methods, s, Put(id));
    CarryOver(s, s', None);
    assert Queued(s.calls[id].dest, Some(s.calls[id].address), s.calls[id].request) in s'.jobs;
    hide Wanted, Owned, OneAnswer, ResultsHonest, AddressesDiffer, JobsBelong;
  }

  lemma PublishKeepsInv(methods: Methods, s: State, child: Child, request: Request)
    requires Inv(s)
    ensures Inv(After(methods, s, Publish(child, request)))
  {
    var s' := After(methods, s, Publish(child, request));
    CarryOver(s, s', None);
    hide Wanted, Owned;
    assert AddressesDiffer(s') && ResultsHonest(s') by { hide JobsBelong, OneAnswer, AnswersBelong, NoneForgotten; }
    assert JobsBelong(s') && OneAnswer(s') by {
      hide AddressesDiffer, ResultsHonest, AnswersBelong, NoneForgotten, WaitsFor;
    }
    assert AnswersBelong(s') && NoneForgotten(s') by { hide AddressesDiffer, ResultsHonest, JobsBelong, OneAnswer; }
    hide AddressesDiffer, ResultsHonest, JobsBelong, OneAnswer, AnswersBelong, NoneForgotten;
  }

  /** A job that goes on to its next stage, perhaps after something was computed for it. */
  ghost function Moved(s: State, job: Job, next: Job, computed: set<Computation>): State
  {
    s.(jobs := s.jobs - multiset{job} + multiset{next}, computed := computed)
  }

  ghost predicate SameJob(job: Job, next: Job)
  {
    next.child == job.child && next.address == job.address && next.request == job.request
  }

  lemma MovingKeepsJobs(s: State, job: Job, next: Job, computed: set<Computation>)
    requires Inv(s) && job in s.jobs && job != next && SameJob(job, next) && s.computed <= computed
    ensures var s' := Moved(s, job, next, computed); JobsBelong(s') && OneAnswer(s')
  {
    MovedBelongs(s, job, next, computed);
    MovedAnswersOnce(s, job, next, computed);
    hide JobsBelong, OneAnswer;
  }

  lemma MovedBelongs(s: State, job: Job, next: Job, computed: set<Computation>)
    requires JobsBelong(s) && job in s.jobs && SameJob(job, next) && s.computed <= computed
    ensures JobsBelong(Moved(s, job, next, computed))
  {
    var s' := Moved(s, job, next, computed);
    CarryOver(s, s', None);
    hide Wanted, Owned, WaitsFor;
    assert forall j :: j in s'.jobs ==> j == next || j in s.jobs;
  }

  lemma MovedAnswersOnce(s: State, job: Job, next: Job, computed: set<Computation>)
    requires OneAnswer(s) && job in s.jobs && job != next && SameJob(job, next)
    ensures OneAnswer(Moved(s, job, next, computed))
  {
    var s' := Moved(s, job, next, computed);
    assert forall j :: j in s'.jobs ==> j == next || (j in s.jobs && s'.jobs[j] <= s.jobs[j]);
    if job.address.Some? { assert next !in s.jobs && job !in s'.jobs; }
  }

  lemma MovingKeepsAnswers(s: State, job: Job, next: Job, computed: set<Computation>)
    requires Inv(s) && job in s.jobs && SameJob(job, next) && s.computed <= computed
    ensures var s' := Moved(s, job, next, computed); AnswersBelong(s') && NoneForgotten(s') && AddressesDiffer(s')
  {
    var s' := Moved(s, job, next, computed);
    CarryOver(s, s', None);
    hide Wanted, Owned, WaitsFor, OneAnswer, JobsBelong, ResultsHonest;
    assert next in s'.jobs;
    assert forall j :: j in s.jobs ==> j in s'.jobs || j == job;
  }

  lemma StartKeepsInv(methods: Methods, s: State, job: Job)
    requires Inv(s) && Enabled(methods, s, StartThread(job))
    ensures Inv(After(methods, s, StartThread(job)))
  {
    var next := Running(job.child, job.address, job.request);
    MovingKeepsJobs(s, job, next, s.computed);
    MovingKeepsAnswers(s, job, next, s.computed);
    hide JobsBelong, OneAnswer, AnswersBelong, NoneForgotten, AddressesDiffer;
    assert After(methods, s, StartThread(job)) == Moved(s, job, next, s.computed);
  }

  lemma ComputeKeepsInv(methods: Methods, s: State, job: Job, reply: Reply)
    requires Inv(s) && Enabled(methods, s, Compute(job, reply))
    ensures Inv(After(methods, s, Compute(job, reply)))
  {
    var next := Finished(job.child, job.address, job.request, reply);
    var computed := s.computed + {Computation(job.child, job.request, reply)};
    MovingKeepsJobs(s, job, next, computed);
    MovingKeepsAnswers(s, job, next, computed);
    hide JobsBelong, OneAnswer, AnswersBelong, NoneForgotten, AddressesDiffer;
    assert After(methods, s, Compute(job, reply)) == Moved(s, job, next, computed);
  }

  /** A job that ends leaves its answer, or none, to the call it belongs to. */
  ghost function Ended(s: State, job: Job, answer: Option<Reply>): State
  {
    s.(jobs := s.jobs - multiset{job}, answers := Deliver(s.answers, job.address, answer))
  }

  lemma EndingKeepsJobs(s: State, job: Job, answer: Option<Reply>)
    requires Inv(s) && job in s.jobs
    ensures var s' := Ended(s, job, answer); AddressesDiffer(s') && JobsBelong(s') && OneAnswer(s') && ResultsHonest(s')
  {
    CarryOver(s, Ended(s, job, answer), None);
    hide Wanted, Owned, NoneForgotten, AnswersBelong;
  }

  lemma EndingKeepsAnswers(s: State, job: Job, answer: Option<Reply>)
    requires Inv(s) && job in s.jobs
    requires answer.Some? ==> Computation(job.child, job.request, answer.value) in s.computed
    ensures var s' := Ended(s, job, answer); AnswersBelong(s') && NoneForgotten(s')
  {
    CarryOver(s, Ended(s, job, answer), None);
    if job.address.Some? {
      assert Wanted(s, job.child, job.address.value, job.request);
      var id :| WaitsFor(s, id, job.address.value) && s.calls[id].dest == job.child &&
        s.calls[id].request == job.request;
      assert Owned(s, job.address.value, answer);
    }
    hide Wanted, Owned, OneAnswer, ResultsHonest, AddressesDiffer;
  }

  lemma AnswerKeepsInv(methods: Methods, s: State, job: Job)
    requires Inv(s) && Enabled(methods, s, Answer(job))
    ensures Inv(After(methods, s, Answer(job)))
  {
    assert Computation(job.child, job.request, job.reply) in s.computed;
    hide JobsBelong, OneAnswer, AnswersBelong, NoneForgotten, AddressesDiffer, ResultsHonest;
    EndingKeepsJobs(s, job, Some(job.reply));
    EndingKeepsAnswers(s, job, Some(job.reply));
  }

  lemma CrashKeepsInv(methods: Methods, s: State, job: Job)
    requires Inv(s) && Enabled(methods, s, Crash(job))
    ensures Inv(After(methods, s, Crash(job)))
  {
    hide JobsBelong, OneAnswer, AnswersBelong, NoneForgotten, AddressesDiffer, ResultsHonest;
    EndingKeepsJobs(s, job, None);
    EndingKeepsAnswers(s, job, None);
  }

  lemma AcceptKeepsInv(methods: Methods, s: State, id: CallId)
    requires Inv(s) && Enabled(methods, s, Accept(id))
    ensures Inv(After(methods, s, Accept(id)))
  {
    AcceptKeepsJobs(methods, s, id);
    AcceptKeepsAnswers(methods, s, id);
    hide Wanted, Owned, WaitsFor, OneAnswer, AnswersBelong, NoneForgotten, JobsBelong;
  }

  lemma AcceptKeepsJobs(methods: Methods, s: State, id: CallId)
    requires Inv(s) && Enabled(methods, s, Accept(id))
    ensures JobsBelong(After(methods, s, Accept(id))) && OneAnswer(After(methods, s, Accept(id)))
  {
    CarryOver(s, After(methods, s, Accept(id)), None);
    hide Wanted, Owned, WaitsFor, AnswersBelong, NoneForgotten, AddressesDiffer, ResultsHonest;
  }

  lemma AcceptKeepsAnswers(methods: Methods, s: State, id: CallId)
    requires Inv(s) && Enabled(methods, s, Accept(id))
    ensures AnswersBelong(After(methods, s, Accept(id))) && NoneForgotten(After(methods, s, Accept(id)))
  {
    CarryOver(s, After(methods, s, Accept(id)), None);
    hide Wanted, Owned, JobsBelong, OneAnswer, AddressesDiffer, ResultsHonest;
  }

  lemma ReceiveKeepsInv(methods: Methods, s: State, id: CallId)
    requires Inv(s) && Enabled(methods, s, Receive(id))
    ensures Inv(After(methods, s, Receive(id)))
  {
    ReceiveKeepsJobs(methods, s, id);
    ReceiveKeepsAnswers(methods, s, id);
    hide Wanted, Owned, WaitsFor, OneAnswer, AnswersBelong, NoneForgotten, JobsBelong;
  }

  lemma ReceiveKeepsJobs(methods: Methods, s: State, id: CallId)
    requires Inv(s) && Enabled(methods, s, Receive(id))
    ensures JobsBelong(After(methods, s, Receive(id))) && OneAnswer(After(methods, s, Receive(id)))
  {
    CarryOver(s, After(methods, s, Receive(id)), Some(s.calls[id].address));
    NoJobAtAnswered(s, s.calls[id].address);
    hide Wanted, Owned, WaitsFor, AnswersBelong, NoneForgotten, AddressesDiffer, ResultsHonest;
  }

  lemma ReceiveKeepsAnswers(methods: Methods, s: State, id: CallId)
    requires Inv(s) && Enabled(methods, s, Receive(id))
    ensures AnswersBelong(After(methods, s, Receive(id))) && NoneForgotten(After(methods, s, Receive(id)))
  {
    CarryOver(s, After(methods, s, Receive(id)), Some(s.calls[id].address));
    NoJobAtAnswered(s, s.calls[id].address);
    hide Wanted, Owned, JobsBelong, OneAnswer, AddressesDiffer, ResultsHonest;
  }

  // ---------- every run ----------

  ghost predicate Next(methods: Methods, s: State, s': State)
  {
    exists step :: Enabled(methods, s, step) && s' == After(methods, s, step)
  }

  ghost predicate IsRun(methods: Methods, run: seq<State>)
  {
    && run != [] && Init(run[0])
    && forall i :: 0 < i < |run| ==> Next(methods, run[i - 1], run[i])
  }

  lemma NextKeepsInv(methods: Methods, s: State, s': State)
    requires Inv(s) && Next(methods, s, s')
    ensures Inv(s')
  {
    var step :| Enabled(methods, s, step) && s' == After(methods, s, step);
    hide Inv, After;
    match step
    case Open(id, dest, request, address) => OpenKeepsInv(methods, s, id, dest, request, address);
    case Put(id) => PutKeepsInv(methods, s, id);
    case Publish(child, request) => PublishKeepsInv(methods, s, child, request);
    case StartThread(job) => StartKeepsInv(methods, s, job);
    case Compute(job, reply) => ComputeKeepsInv(methods, s, job, reply);
    case Crash(job) => CrashKeepsInv(methods, s, job);
    case Answer(job) => AnswerKeepsInv(methods, s, job);
    case Accept(id) => AcceptKeepsInv(methods, s, id);
    case Receive(id) => ReceiveKeepsInv(methods, s, id);
  }

  lemma {:induction false} EveryStateIsConsistent(methods: Methods, run: seq<State>, i: nat)
    requires IsRun(methods, run) && i < |run|
    ensures Inv(run[i])
  {
    hide Inv, Next;
    if i == 0 {
      InitHasInv(run[0]);
    } else {
      EveryStateIsConsistent(methods, run, i - 1);
      NextKeepsInv(methods, run[i - 1], run[i]);
    }
  }

  lemma InitHasInv(s: State)
    requires Init(s)
    ensures Inv(s)
  {
  }

  /**
   Correlation, over every interleaving: what `rpc` returns is what the named child
   computed for that very method and those arguments, although addresses are reused.
   */
  lemma ReturnedWasComputedByTheNamedChild(methods: Methods, run: seq<State>, i: nat, id: CallId)
    requires IsRun(methods, run) && i < |run|
    requires id in run[i].calls && run[i].calls[id].stage.Returned?
    ensures var c := run[i].calls[id]; Computation(c.dest, c.request, c.stage.reply) in run[i].computed
  {
    EveryStateIsConsistent(methods, run, i);
  }

  /** The children compute only what the look-up finds for them. */
  lemma {:induction false} ComputedWasFound(methods: Methods, run: seq<State>, i: nat)
    requires IsRun(methods, run) && i < |run|
    ensures forall c :: c in run[i].computed ==> MayReply(methods, c.request, c.reply)
  {
    hide LookUp;
    if i > 0 {
      ComputedWasFound(methods, run, i - 1);
      hide MayReply;
      assert Next(methods, run[i - 1], run[i]);
      hide IsRun;
      NextComputes(methods, run[i - 1], run[i]);
    }
  }

  lemma NextComputes(methods: Methods, s: State, s': State)
    requires Next(methods, s, s')
    ensures forall c :: c in s'.computed ==> c in s.computed || MayReply(methods, c.request, c.reply)
  {
    hide LookUp;
    var step :| Enabled(methods, s, step) && s' == After(methods, s, step);
    hide MayReply;
  }

  /**
   Over every interleaving: a call for a name with a dot that is no plugin's method, or for an attribute that does
   not exist or is not exposed, returns None; one for an attribute that does not say never returns.
   */
  lemma UnexposedReturnsNone(methods: Methods, run: seq<State>, i: nat, id: CallId)
    requires IsRun(methods, run) && i < |run|
    requires id in run[i].calls && run[i].calls[id].stage.Returned?
    ensures var name, reply := run[i].calls[id].request.name, run[i].calls[id].stage.reply;
      if '.' in name then name !in methods.rmi ==> reply == NoReply
      else
        && (name !in methods.attributes ==> reply == NoReply)
        && (name in methods.attributes ==> methods.attributes[name] != None)
        && (name in methods.attributes && methods.attributes[name] == Some(false) ==> reply == NoReply)
  {
    ComputedWasFound(methods, run, i);
    ReturnedWasComputedByTheNamedChild(methods, run, i, id);
    var c := run[i].calls[id];
    hide IsRun;
    assert MayReply(methods, c.request, c.stage.reply);
  }

  /** A plugin's method, by its name with a dot, or an attribute of the child that is exposed. */
  ghost predicate Exposed(methods: Methods, name: string)
  {
    if '.' in name then name in methods.rmi else name in methods.attributes && methods.attributes[name] == Some(true)
  }

  lemma Extended(methods: Methods, run: seq<State>, step: Step) returns (longer: seq<State>)
    requires IsRun(methods, run) && Enabled(methods, run[|run| - 1], step)
    ensures IsRun(methods, longer) && longer[|longer| - 1] == After(methods, run[|run| - 1], step)
  {
    longer := run + [After(methods, run[|run| - 1], step)];
    forall i | 0 < i < |longer| ensures Next(methods, longer[i - 1], longer[i]) {
      if i < |run| { assert Next(methods, run[i - 1], run[i]); }
    }
  }

  /** The only call so far, and the only job or answer there is for it. */
  ghost predicate Alone(methods: Methods, run: seq<State>, c: Call, jobs: multiset<Job>,
                        answers: map<Address, Option<Reply>>)
  {
    && IsRun(methods, run)
    && var s := run[|run| - 1]; s.calls == map[0 := c] && s.jobs == jobs && s.answers == answers
  }

  /** Whatever is exposed is really called: it may return any value to its caller. */
  lemma ExposedMayReturnAnything(methods: Methods, dest: Child, request: Request, a: Address, reply: Reply)
    returns (run: seq<State>)
    requires Exposed(methods, request.name)
    ensures IsRun(methods, run)
    ensures run[|run| - 1].calls == map[0 := Call(dest, request, a, Returned(reply))]
  {
    var c := Call(dest, request, a, Opened);
    run := Beginning(methods, c);
    var queued, running := Queued(dest, Some(a), request), Running(dest, Some(a), request);
    assert run[|run| - 1].calls[0] == c.(stage := Sent) && HasListener(run[|run| - 1], a);
    run := Extended(methods, run, StartThread(queued));
    assert multiset{queued} - multiset{queued} + multiset{running} == multiset{running};
    assert Alone(methods, run, c.(stage := Sent), multiset{running}, map[]);
    var finished := Finished(dest, Some(a), request, reply);
    run := Extended(methods, run, Compute(running, reply));
    assert multiset{running} - multiset{running} + multiset{finished} == multiset{finished};
    assert Alone(methods, run, c.(stage := Sent), multiset{finished}, map[]);
    run := Ending(methods, run, c.(stage := Sent), finished);
  }

  lemma Ending(methods: Methods, run: seq<State>, c: Call, job: Job) returns (longer: seq<State>)
    requires job.Finished? && job.address == Some(c.address) && c.stage == Sent
    requires Alone(methods, run, c, multiset{job}, map[])
    ensures IsRun(methods, longer) && longer[|longer| - 1].calls == map[0 := c.(stage := Returned(job.reply))]
  {
    longer := Extended(methods, run, Answer(job));
    assert multiset{job} - multiset{job} == multiset{};
    assert Alone(methods, longer, c, multiset{}, map[c.address := Some(job.reply)]);
    longer := Extended(methods, longer, Accept(0));
    assert Alone(methods, longer, c.(stage := Accepted), multiset{}, map[c.address := Some(job.reply)]);
    longer := Extended(methods, longer, Receive(0));
  }

  lemma Beginning(methods: Methods, c: Call) returns (run: seq<State>)
    requires c.stage == Opened
    ensures Alone(methods, run, c.(stage := Sent), multiset{Queued(c.dest, Some(c.address), c.request)}, map[])
  {
    run := [State(map[], multiset{}, map[], {})];
    run := Extended(methods, run, Open(0, c.dest, c.request, c.address));
    assert Alone(methods, run, c, multiset{}, map[]);
    run := Extended(methods, run, Put(0));
  }

  /** The step takes the call further. */
  ghost predicate Serves(s: State, id: CallId, step: Step)
    requires id in s.calls
  {
    step == Receive(id) || step == Accept(id) ||
    ((step.StartThread? || step.Compute? || step.Crash? || step.Answer?) &&
      step.job.address == Some(s.calls[id].address))
  }

  /** A call that waits is never stuck: its job or its answer is there, and some step takes it further. */
  lemma WaitingCallsCanProceed(methods: Methods, run: seq<State>, i: nat, id: CallId)
    requires IsRun(methods, run) && i < |run|
    requires id in run[i].calls && Waiting(run[i].calls[id])
    ensures exists step :: Enabled(methods, run[i], step) && Serves(run[i], id, step)
  {
    EveryStateIsConsistent(methods, run, i);
    var s, c := run[i], run[i].calls[id];
    if c.address in s.answers {
      if c.stage.Accepted? {
        assert Enabled(methods, s, Receive(id));
      } else {
        assert Enabled(methods, s, Accept(id));
      }
    } else {
      var j :| j in s.jobs && j.address == Some(c.address);
      match j
      case Queued(_, _, _) => assert Enabled(methods, s, StartThread(j));
      case Running(_, _, request) =>
        var raises := LookUp(methods, request.name) == RaisesError;
        assert Enabled(methods, s, if raises then Crash(j) else Compute(j, NoReply));
      case Finished(_, _, _, _) => assert Enabled(methods, s, Answer(j));
    }
  }

  // ---------- the choice of a child ----------

  /** `cycle(self._all_children)`; without children the iterator is exhausted at once. */
  class RoundRobin {
    const children: seq<Child>
    var cursor: nat
    /** The children chosen so far. */
    ghost var chosen: seq<Child>

    ghost predicate Valid()
      reads this
    {
      && (children != [] ==> cursor < |children| && cursor == Turn(|chosen|, |children|))
      && chosen == Rounds(children, |chosen|)
    }

    constructor (children: seq<Child>)
      ensures Valid() && chosen == [] && this.children == children
    {
      this.children, cursor, chosen := children, 0, [];
    }

    /** `next(self.children)`, as GetConfig calls it; None is StopIteration. */
    method Next() returns (r: Option<Child>)
      requires Valid()
      modifies this
      ensures Valid()
      ensures r == if children == [] then None else Some(children[Turn(|old(chosen)|, |children|)])
      ensures chosen == if r.Some? then old(chosen) + [r.value] else old(chosen)
    {
      if children == [] { return None; }
      r := Some(children[cursor]);
      chosen := chosen + [children[cursor]];
      cursor := if cursor + 1 == |children| then 0 else cursor + 1;
    }
  }

  /** The position in the cycle after n calls: n modulo m, by counting. */
  ghost function Turn(n: nat, m: nat): (r: nat)
    requires m > 0
    ensures r < m
  {
    if n == 0 then 0 else if Turn(n - 1, m) + 1 == m then 0 else Turn(n - 1, m) + 1
  }

  /** The full rounds in n calls. */
  ghost function Laps(n: nat, m: nat): nat
    requires m > 0
  {
    if n == 0 then 0 else Laps(n - 1, m) + if Turn(n, m) == 0 then 1 else 0
  }

  /** The children chosen by n calls in a row. */
  ghost function Rounds(children: seq<Child>, n: nat): (r: seq<Child>)
    ensures children != [] ==> |r| == n
  {
    if n == 0 || children == [] then [] else Rounds(children, n - 1) + [children[Turn(n - 1, |children|)]]
  }

  ghost function Count(chosen: seq<Child>, c: Child): nat
  {
    if chosen == [] then 0
    else Count(chosen[..|chosen| - 1], c) + if chosen[|chosen| - 1] == c then 1 else 0
  }

  /** Child k has rendered one configuration per full round, and one more if the current round has passed it. */
  lemma {:induction false} ShareOfChild(children: seq<Child>, n: nat, k: nat)
    requires k < |children| && forall i, j :: 0 <= i < j < |children| ==> children[i] != children[j]
    ensures Count(Rounds(children, n), children[k]) == Laps(n, |children|) + if k < Turn(n, |children|) then 1 else 0
  {
    if n > 0 {
      ShareOfChild(children, n - 1, k);
      var r := Rounds(children, n);
      assert r[..n - 1] == Rounds(children, n - 1);
    }
  }

  /** After any number of GetConfig calls, two children's shares differ by at most one. */
  lemma SharesDifferByAtMostOne(children: seq<Child>, n: nat, k: nat, l: nat)
    requires k < |children| && l < |children| && forall i, j :: 0 <= i < j < |children| ==> children[i] != children[j]
    ensures -1 <= Count(Rounds(children, n), children[k]) - Count(Rounds(children, n), children[l]) <= 1
  {
    ShareOfChild(children, n, k);
    ShareOfChild(children, n, l);
  }
}
