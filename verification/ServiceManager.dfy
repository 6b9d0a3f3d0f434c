/** Service calls, sdk/fins/service/service_manager.cpp: callers, the worker thread and the destructor, interleaved at
    every check, critical section, sleep and notification. */
module ServiceManager {
  import opened Wrappers

  type Topic = string
  type Signature = (string, string)

  /** A registered service: which callback, and its input and output type ids. */
  datatype Entry = Entry(callback: nat, signature: Signature)

  datatype Request = Request(topic: Topic, argument: string, signature: Signature)

  /** What a callback does with its argument. */
  datatype Reply = Returns(value: string) | Throws(what: string)

  datatype Outcome = Stopping | NotFound | TypeMismatch | Value(value: string) | CallbackThrew(what: string)

  function Lookup(services: map<Topic, Entry>, topic: Topic): Option<Entry> {
    if topic in services then Some(services[topic]) else None
  }

  /** The outcome of a call, given the entry found for its topic and what that entry's callback does. */
  function Decide(entry: Option<Entry>, request: Request, reply: Reply): Outcome {
    match entry
    case None => NotFound
    case Some(e) =>
      if e.signature != request.signature then TypeMismatch
      else
        match reply
        case Returns(value) => Value(value)
        case Throws(what) => CallbackThrew(what)
  }

  /** What the outcome of a call that the worker resolved says about the registry it was looked up in. */
  ghost predicate OutcomeFits(services: map<Topic, Entry>, request: Request, reply: Reply, outcome: Outcome) {
    var known := request.topic in services;
    && outcome != Stopping
    && (outcome == NotFound <==> !known)
    && (outcome == TypeMismatch <==> known && services[request.topic].signature != request.signature)
    && (forall v :: outcome == Value(v) <==>
          known && services[request.topic].signature == request.signature && reply == Returns(v))
    && (forall w :: outcome == CallbackThrew(w) <==>
          known && services[request.topic].signature == request.signature && reply == Throws(w))
  }

  lemma DecideFits(services: map<Topic, Entry>, request: Request, reply: Reply)
    ensures OutcomeFits(services, request, reply, Decide(Lookup(services, request.topic), request, reply))
  {
  }

  // ---------- the class, one operation at a time ----------

  /** std::promise: setting it a second time is an error. */
  class Promise {
    var outcome: Option<Outcome>

    constructor ()
      ensures outcome == None
    {
      outcome := None;
    }

    method Resolve(result: Outcome)
      requires outcome == None
      modifies this
      ensures outcome == Some(result)
    {
      outcome := Some(result);
    }
  }

  datatype Task = Task(request: Request, promise: Promise)

  class ServiceManager {
    var services: map<Topic, Entry>
    var tasks: seq<Task>
    var stop: bool

    /** Every queued call waits for its own promise. */
    ghost predicate Valid()
      reads this, set task | task in tasks :: task.promise
    {
      && (forall i :: 0 <= i < |tasks| ==> tasks[i].promise.outcome == None)
      && (forall i, j :: 0 <= i < j < |tasks| ==> tasks[i].promise != tasks[j].promise)
    }

    constructor ()
      ensures Valid() && services == map[] && tasks == [] && !stop
    {
      services, tasks, stop := map[], [], false;
    }

    /** An existing service on the topic is overwritten. */
    method RegisterService(topic: Topic, entry: Entry)
      modifies this`services
      ensures services == old(services)[topic := entry]
    {
      services := services[topic := entry];
    }

    method CallService(request: Request) returns (promise: Promise)
      requires Valid()
      modifies this`tasks
      ensures Valid() && fresh(promise)
      ensures if stop then promise.outcome == Some(Stopping) && tasks == old(tasks)
              else promise.outcome == None && tasks == old(tasks) + [Task(request, promise)]
    {
      promise := new Promise();
      if stop {
        promise.Resolve(Stopping);
        return;
      }
      tasks := tasks + [Task(request, promise)];
    }

    /** One turn of the worker: the oldest call, and no other, is resolved by the entry its topic has now. */
    method WorkerTurn(reply: Reply) returns (worked: bool)
      requires Valid()
      modifies this`tasks, set task | task in tasks :: task.promise
      ensures Valid() && worked == (old(tasks) != []) && old(tasks) == old(tasks)[..if worked then 1 else 0] + tasks
      ensures worked ==>
                var task := old(tasks)[0];
                && task.promise.outcome == Some(Decide(Lookup(services, task.request.topic), task.request, reply))
                && OutcomeFits(services, task.request, reply, task.promise.outcome.value)
    {
      if tasks == [] {
        return false;
      }
      var task := tasks[0];
      tasks := tasks[1..];
      var entry := Lookup(services, task.request.topic);
      if entry.None? {
        task.promise.Resolve(NotFound);
      } else if entry.value.signature != task.request.signature {
        task.promise.Resolve(TypeMismatch);
      } else {
        match reply
        case Returns(value) => task.promise.Resolve(Value(value));
        case Throws(what) => task.promise.Resolve(CallbackThrew(what));
      }
      return true;
    }
  }
}
