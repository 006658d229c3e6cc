/** The executor that drives one tick: the four phases in order, giving up at the first failure. */
module Pipeline {
  import opened Tasks
  import opened DispatchRuns
  import opened Scheduling
  import D = Dispatch

  datatype ExecutorState = Created | Initialized | Running | Stopping | Stopped

  /** `Thrown` stands for a logic_error. */
  datatype ExecutionResult = Success | DispatchFailure | Thrown

  class RuntimePipelineExecutor {
    const taskGraph: TaskGraph
    const runtimeContext: RuntimeContext
    const taskRegistry: TaskRegistry
    const dispatch: JobDispatch
    const hardwareConcurrency: nat
    var state: ExecutorState

    ghost predicate Valid()
      reads this, dispatch, taskRegistry
    {
      dispatch.Valid() && taskRegistry.Valid() && WellFormed(taskGraph) && dispatch.main.Outside?
    }

    ghost predicate AllRegistered()
      requires taskRegistry.Valid()
      reads taskRegistry
    {
      forall n :: 0 <= n < |taskGraph.nodes| ==>
        taskGraph.nodes[n].id < 256 && taskRegistry.registry[taskGraph.nodes[n].id] != None
    }

    constructor (taskGraph: TaskGraph, runtimeContext: RuntimeContext, taskRegistry: TaskRegistry,
        dispatch: JobDispatch, hardwareConcurrency: nat)
      requires dispatch.Valid() && taskRegistry.Valid() && WellFormed(taskGraph) && dispatch.main.Outside?
      ensures Valid() && state == Created
      ensures this.taskGraph == taskGraph && this.runtimeContext == runtimeContext && this.taskRegistry == taskRegistry
        && this.dispatch == dispatch
    {
      this.taskGraph, this.runtimeContext, this.taskRegistry, this.dispatch := taskGraph, runtimeContext, taskRegistry,
        dispatch;
      this.hardwareConcurrency, state := hardwareConcurrency, Created;
    }

    method Initialize() returns (r: ExecutionResult)
      requires Valid()
      modifies this, dispatch
      ensures Valid()
      ensures r.Thrown? <==> old(state) != Created
      ensures r.Success? <==> (old(state) == Created && !old(dispatch.running) && AllRegistered())
      ensures state == if r.Success? then Initialized else old(state)
      ensures r.Success? ==>
        dispatch.running && dispatch.graph == taskGraph && dispatch.context == runtimeContext
          && dispatch.registry == taskRegistry
      ensures !r.Success? ==> dispatch.running == old(dispatch.running) && dispatch.View() == old(dispatch.View())
                              && dispatch.graph == old(dispatch.graph) && dispatch.registry == old(dispatch.registry)
    {
      hide Held, RunTo;
      if state != Created {
        return Thrown;
      }
      var ok := dispatch.Initialize(taskGraph, runtimeContext, taskRegistry, hardwareConcurrency);
      if !ok {
        return DispatchFailure;
      }
      state := Initialized;
      return Success;
    }

    /** Ends in Stopped with the dispatcher as after construction; a second call changes nothing. */
    method Shutdown()
      requires Valid()
      modifies this, dispatch
      ensures Valid() && state == Stopped
      ensures old(state) != Stopped ==> !dispatch.running && dispatch.AtStart()
      ensures old(state) == Stopped ==>
        dispatch.running == old(dispatch.running) && dispatch.View() == old(dispatch.View())
                                        && dispatch.graph == old(dispatch.graph)
                                          && dispatch.registry == old(dispatch.registry)
    {
      hide Held, RunTo;
      if state == Stopped {
        return;
      }
      state := Stopping;
      dispatch.Shutdown();
      state := Stopped;
    }

    /** A tick that succeeds has executed every task of the graph exactly once, in an order that
        extends the dependencies and the phases; it succeeds whenever the dispatcher is running,
        also after ticks that failed.  A failing tick leaves the executor ready for the next. */
    method ExecutePipeline() returns (r: ExecutionResult)
      requires Valid()
      modifies this`state, dispatch`runtimeState, dispatch`readyQueue, dispatch`activeTaskCount, dispatch`phaseEpoch,
        dispatch`workers,
               dispatch`asleep, dispatch`currentPhase, dispatch`main, dispatch`status, dispatch`chosen, dispatch`log,
                 dispatch`run, dispatch`left
      ensures Valid()
      ensures r.Thrown? <==> old(state) == Created || old(state) == Stopped
      ensures r.Thrown? ==> state == old(state) && dispatch.View() == old(dispatch.View())
      ensures !r.Thrown? ==> state == Initialized && (r.Success? <==> dispatch.running)
      ensures r.Success? ==> RunsExactly(dispatch.graph, dispatch.log, PHASES)
      ensures r.Success? ==> Asked(dispatch.run) == Asked(old(dispatch.run)) + [0, 1, 2, 3]
      ensures r.DispatchFailure? ==> dispatch.View() == old(dispatch.View())
    {
      hide JobDispatch.Steady, JobDispatch.AtStart, RunsExactly, Asked, PhaseRun, WellFormed;
      if state == Created || state == Stopped {
        return Thrown;
      }
      state := ExecutorState.Running;
      var phase := 0;
      while phase < PHASES
        invariant phase <= PHASES && Valid()
        invariant phase > 0 ==>
          dispatch.running && dispatch.main == D.Outside(phase) && RunsExactly(dispatch.graph, dispatch.log, phase)
        invariant phase == 0 ==> dispatch.View() == old(dispatch.View())
        invariant Asked(dispatch.run) == Asked(old(dispatch.run)) + [0, 1, 2, 3][..phase]
      {
        ghost var before := dispatch.run;
        var ok := dispatch.ExecutePhase(phase);
        if !ok {
          state := Initialized;
          return DispatchFailure;
        }
        PhaseRunAsks(before, phase, dispatch.run);
        phase := phase + 1;
      }
      state := Initialized;
      return Success;
    }
  }
}
