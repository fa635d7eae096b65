/**
  The request-status slice for creating a project's minutes of meeting: three fields that
  the `pending`, `fulfilled` and `rejected` cases of the create request, and the
  `resetProjectMoMState` action, assign in place.
 */
module ProjectMoM {
  import opened Common

  /** The slice's state; `P` is the created record the store returns. */
  datatype MoMState<P> = MoMState(projectMoM: Option<P>, projectMoMLoading: bool, projectMoMError: Option<string>)

  /** The actions the slice answers. `Rejected` carries the message the request was rejected with. */
  datatype MoMAction<P> = Pending | Fulfilled(payload: P) | Rejected(message: string) | Reset

  /** `initialState`. */
  function InitialState<P>(): MoMState<P> {
    MoMState(None, false, None)
  }

  /** The reducer: what each action does to the state. */
  function Reduce<P>(s: MoMState<P>, a: MoMAction<P>): (r: MoMState<P>)
    ensures a.Pending? ==> r.projectMoMLoading && r.projectMoMError == None && r.projectMoM == s.projectMoM
    ensures a.Fulfilled? ==> !r.projectMoMLoading && r.projectMoM == Some(a.payload) && r.projectMoMError == s.projectMoMError
    ensures a.Rejected? ==> !r.projectMoMLoading && r.projectMoMError == Some(a.message) && r.projectMoM == s.projectMoM
    ensures a.Reset? ==> r == InitialState()
  {
    match a
    case Pending => s.(projectMoMLoading := true, projectMoMError := None)
    case Fulfilled(payload) => s.(projectMoMLoading := false, projectMoM := Some(payload))
    case Rejected(message) => s.(projectMoMLoading := false, projectMoMError := Some(message))
    case Reset => MoMState(None, false, None)
  }

  /** The state after a sequence of actions. */
  function Run<P>(s: MoMState<P>, trace: seq<MoMAction<P>>): MoMState<P> {
    if trace == [] then s else Reduce(Run(s, trace[..|trace| - 1]), trace[|trace| - 1])
  }

  /** Resetting twice is resetting once. */
  lemma ResetIdempotent<P>(s: MoMState<P>)
    ensures Reduce(Reduce(s, Reset), Reset) == Reduce(s, Reset)
  {
  }

  /** A request that starts and succeeds leaves no error and no loading flag. */
  lemma PendingThenFulfilled<P>(s: MoMState<P>, payload: P)
    ensures Reduce(Reduce(s, Pending), Fulfilled(payload)) == MoMState(Some(payload), false, None)
  {
  }

  /** From a state that is not loading, the flag is up exactly while the latest action is `pending`. */
  lemma {:induction false} LoadingTracksLastAction<P>(s: MoMState<P>, trace: seq<MoMAction<P>>)
    requires !s.projectMoMLoading
    ensures Run(s, trace).projectMoMLoading <==> trace != [] && trace[|trace| - 1].Pending?
  {
    if trace != [] {
      LoadingTracksLastAction(s, trace[..|trace| - 1]);
    }
  }

  /** From the initial state, an error is only ever a message some `rejected` action carried. */
  lemma {:induction false} ErrorComesFromRejection<P>(trace: seq<MoMAction<P>>)
    ensures Run(InitialState(), trace).projectMoMError.Some? ==>
            Rejected(Run(InitialState(), trace).projectMoMError.value) in trace
  {
    if trace != [] {
      var before := trace[..|trace| - 1];
      ErrorComesFromRejection(before);
      assert trace == before + [trace[|trace| - 1]];
    }
  }

  /** The slice, as a store object whose cases assign its three fields in place. */
  class ProjectMoMSlice<P> {
    var projectMoM: Option<P>
    var projectMoMLoading: bool
    var projectMoMError: Option<string>

    function State(): MoMState<P>
      reads this
    {
      MoMState(projectMoM, projectMoMLoading, projectMoMError)
    }

    constructor ()
      ensures State() == InitialState()
    {
      projectMoM, projectMoMLoading, projectMoMError := None, false, None;
    }

    /** `resetProjectMoMState`. */
    method ResetProjectMoMState()
      modifies this
      ensures State() == Reduce(old(State()), Reset)
      ensures State() == InitialState()
    {
      projectMoM := None;
      projectMoMLoading := false;
      projectMoMError := None;
    }

    /** `createProjectMoM.pending`. */
    method Pending()
      modifies this
      ensures State() == Reduce(old(State()), MoMAction.Pending)
    {
      projectMoMLoading := true;
      projectMoMError := None;
    }

    /** `createProjectMoM.fulfilled`. */
    method Fulfilled(payload: P)
      modifies this
      ensures State() == Reduce(old(State()), MoMAction.Fulfilled(payload))
    {
      projectMoMLoading := false;
      projectMoM := Some(payload);
    }

    /** `createProjectMoM.rejected`. */
    method Rejected(message: string)
      modifies this
      ensures State() == Reduce(old(State()), MoMAction.Rejected(message))
    {
      projectMoMLoading := false;
      projectMoMError := Some(message);
    }
  }
}
