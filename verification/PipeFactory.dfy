/** The registry of pipes, PipeFactory in sdk/fins/pipe.hpp:113-177. A pipe leaves it only after it was stopped. */
module PipeFactory {
  import opened Pipe

  type PipeId = string

  class PipeFactory<T(0)> {
    var pipes: map<PipeId, Pipe<T>>

    /** Two ids never share a pipe. */
    ghost predicate Valid()
      reads this
    {
      forall a, b :: a in pipes && b in pipes && pipes[a] == pipes[b] ==> a == b
    }

    ghost predicate AllStopped(registered: map<PipeId, Pipe<T>>)
      reads registered.Values
    {
      forall id :: id in registered ==> !registered[id].started
    }

    constructor ()
      ensures Valid() && pipes == map[]
    {
      pipes := map[];
    }

    method GetPipe(id: PipeId) returns (pipe: Pipe<T>)
      requires Valid()
      modifies this
      ensures Valid() && id in pipes && pipe == pipes[id]
      ensures id in old(pipes) ==> pipes == old(pipes)
      ensures id !in old(pipes) ==>
                pipes == old(pipes)[id := pipe] && fresh(pipe) && pipe.Valid() && pipe.Abstract() == Fresh()
    {
      if id !in pipes {
        pipe := new Pipe();
        pipes := pipes[id := pipe];
        return;
      }
      pipe := pipes[id];
    }

    /** Exactly the pipe of that id is stopped, and gone. */
    method RemovePipe(id: PipeId)
      requires Valid()
      modifies this, pipes.Values
      ensures Valid() && pipes == old(pipes) - {id}
      ensures id in old(pipes) ==> !old(pipes)[id].started
      ensures forall other :: other in pipes ==> pipes[other].started == old(pipes[other].started)
    {
      if id in pipes {
        pipes[id].Stop();
        pipes := pipes - {id};
      }
    }

    /** `mapOrder` is the order in which the map iterates. */
    method StopAll(mapOrder: seq<PipeId>)
      requires forall id :: id in mapOrder <==> id in pipes
      modifies pipes.Values
      ensures AllStopped(pipes)
      ensures forall id :: id in pipes ==>
                pipes[id].accepted == old(pipes[id].accepted) && pipes[id].delivered == old(pipes[id].delivered)
    {
      for i := 0 to |mapOrder|
        invariant forall k :: 0 <= k < i ==> !pipes[mapOrder[k]].started
        invariant forall id :: id in pipes ==>
                    pipes[id].accepted == old(pipes[id].accepted) && pipes[id].delivered == old(pipes[id].delivered)
      {
        pipes[mapOrder[i]].Stop();
      }
    }

    /** Everything registered is stopped, and gone. */
    method Clear(mapOrder: seq<PipeId>)
      requires forall id :: id in mapOrder <==> id in pipes
      modifies this, pipes.Values
      ensures Valid() && pipes == map[] && AllStopped(old(pipes))
    {
      StopAll(mapOrder);
      pipes := map[];
    }
  }
}
