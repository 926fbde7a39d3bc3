// The reviewed job lifecycle: which state changes a job may make.
module Lifecycle {
  import opened Wrappers

  datatype JobState =
    | Accepted | Inspecting | Processing | Validating | Cancelling
    | Cancelled | Rejected | Partial | ReviewRequired | Completed

  predicate IsAllowedTransition(from: JobState, to: JobState) {
    match from
    case Accepted => to == Inspecting || to == Cancelling
    case Inspecting => to == Rejected || to == Processing || to == Cancelling
    case Processing => to == Validating || to == JobState.Partial || to == Cancelling
    case Validating => to == JobState.Completed || to == ReviewRequired || to == Cancelling
    case Cancelling => to == JobState.Cancelled
    case Partial => to == ReviewRequired
    case _ => false
  }

  datatype LifecycleError = InvalidJobTransition(from: JobState, to: JobState)

  class JobLifecycle {
    var state: JobState

    constructor ()
      ensures state == Accepted
    {
      state := Accepted;
    }

    method TransitionTo(next: JobState) returns (r: Result<(), LifecycleError>)
      modifies this
      ensures r.Ok? <==> next == old(state) || IsAllowedTransition(old(state), next)
      ensures r.Ok? ==> state == next
      ensures r.Err? ==> state == old(state) && r.error == InvalidJobTransition(old(state), next)
    {
      if state == next || IsAllowedTransition(state, next) {
        state := next;
        return Ok(());
      }
      return Err(InvalidJobTransition(state, next));
    }

    method RequestCancellation() returns (r: Result<JobState, LifecycleError>)
      modifies this
      ensures r.Ok? <==> old(state) in {Accepted, Inspecting, Processing, Validating, Cancelling, JobState.Cancelled}
      ensures r.Ok? ==> r.value == state && state in {Cancelling, JobState.Cancelled}
      ensures r.Ok? && state != old(state) ==> state == Cancelling && IsAllowedTransition(old(state), Cancelling)
      ensures r.Err? ==> state == old(state)
    {
      match state {
        case Accepted | Inspecting | Processing | Validating =>
          state := Cancelling;
          return Ok(state);
        case Cancelling | Cancelled =>
          return Ok(state);
        case _ =>
          return Err(InvalidJobTransition(state, Cancelling));
      }
    }
  }

  /** A sequence of states each step of which is allowed. */
  predicate IsPath(path: seq<JobState>) {
    |path| >= 1 && forall i :: 0 <= i < |path| - 1 ==> IsAllowedTransition(path[i], path[i + 1])
  }

  /** One state can follow another along allowed transitions. */
  ghost predicate Reaches(from: JobState, to: JobState) {
    exists path: seq<JobState> :: IsPath(path) && path[0] == from && path[|path| - 1] == to
  }

  lemma ReachesByPath(path: seq<JobState>)
    requires IsPath(path)
    ensures Reaches(path[0], path[|path| - 1])
  {
  }

  lemma ReachesTransitive(a: JobState, b: JobState, c: JobState)
    requires Reaches(a, b) && Reaches(b, c)
    ensures Reaches(a, c)
  {
    var p: seq<JobState> :| IsPath(p) && p[0] == a && p[|p| - 1] == b;
    var q: seq<JobState> :| IsPath(q) && q[0] == b && q[|q| - 1] == c;
    var path := p + q[1..];
    forall i | 0 <= i < |path| - 1 ensures IsAllowedTransition(path[i], path[i + 1]) {
      if i >= |p| - 1 {
        assert path[i] == q[i - (|p| - 1)] && path[i + 1] == q[i + 1 - (|p| - 1)];
      }
    }
    assert path[|path| - 1] == c;
    ReachesByPath(path);
  }

  /** No allowed transition leaves these states. */
  predicate Terminal(s: JobState) {
    s in {JobState.Cancelled, Rejected, ReviewRequired, JobState.Completed}
  }

  /** Whatever follows a terminal state along allowed transitions is that state. */
  lemma TerminalReachesItself(from: JobState, to: JobState)
    requires Terminal(from) && Reaches(from, to)
    ensures to == from
  {
    var path: seq<JobState> :| IsPath(path) && path[0] == from && path[|path| - 1] == to;
    assert |path| > 1 ==> IsAllowedTransition(path[0], path[1]);
  }

  /** From where each state can be entered. */
  lemma EnteredFrom(from: JobState)
    ensures !IsAllowedTransition(from, Accepted)
    ensures IsAllowedTransition(from, Inspecting) <==> from == Accepted
    ensures IsAllowedTransition(from, Processing) <==> from == Inspecting
    ensures IsAllowedTransition(from, Validating) <==> from == Processing
    ensures IsAllowedTransition(from, Cancelling) <==> from in {Accepted, Inspecting, Processing, Validating}
    ensures IsAllowedTransition(from, JobState.Cancelled) <==> from == Cancelling
    ensures IsAllowedTransition(from, Rejected) <==> from == Inspecting
    ensures IsAllowedTransition(from, JobState.Partial) <==> from == Processing
    ensures IsAllowedTransition(from, ReviewRequired) <==> from in {Validating, JobState.Partial}
    ensures IsAllowedTransition(from, JobState.Completed) <==> from == Validating
  {
  }
}
