/**
 * The run-state holder of the single-profile application: the selected
 * profile, the run state, and a running flag derived from the run state.
 * The deferral of `setRunState` to the UI thread is taken as immediate.
 */
module RunStates {
  import opened Wrappers
  import opened ProfileModel

  datatype RunState = Startable | Cancelable

  /** The flag `setRunState` derives from a run state. */
  function IsRunningState(s: RunState): (r: bool)
    ensures r <==> s == Cancelable
  {
    s.Cancelable?
  }

  class RunStateManager {
    /** `profileProperty`. */
    var profile: Option<Profile>
    /** `runStateProperty`: unset until the first `setRunState`. */
    var runState: Option<RunState>
    /** `runningProperty`. */
    var running: bool

    /** The running flag is on exactly when the state is Cancelable. */
    ghost predicate Valid()
      reads this
    {
      running <==> runState == Some(Cancelable)
    }

    constructor ()
      ensures Valid() && profile.None? && runState.None? && !running
    {
      profile := None;
      runState := None;
      running := false;
    }

    /** `isRunning`. */
    function IsRunning(): (r: bool)
      reads this
      requires Valid()
      ensures r <==> runState == Some(Cancelable)
    {
      running
    }

    /** `setProfile`: changes the selection only. */
    method SetProfile(p: Option<Profile>)
      requires Valid()
      modifies this
      ensures Valid() && profile == p
      ensures runState == old(runState) && running == old(running)
    {
      profile := p;
    }

    /** `setRunState`: stores the state and derives the flag from it. */
    method SetRunState(s: RunState)
      modifies this
      ensures Valid() && runState == Some(s) && running == IsRunningState(s)
      ensures profile == old(profile)
    {
      runState := Some(s);
      running := s == Cancelable;
    }
  }
}
