/** The verdicts a directory draws from its push and pull statuses: whether it can
    push or pull safely, whether either direction would overwrite pending git
    changes, whether the statuses conflict, and which direction a safe move takes. */
module Verdict {
  import opened State
  import opened Wrappers

  /** `get_status`: what a pass's history says about its direction. */
  function StatusOf(h: History): (s: Status)
    ensures s.localCollision <==> |h.dataOverwrites| > 0 || |h.removes| > 0
    ensures s.timeOverwrites <==> |h.timeOverwrites| > 0
    ensures s.localChanges == h.moveChanges && s.gitChanges == h.gitChanges
  {
    Status(h.AnySeriousCollisions(), h.moveChanges, h.gitChanges, |h.timeOverwrites| > 0)
  }

  /** A benign time-overwrite alone never makes a direction collide. */
  lemma TimeOverwritesAreBenign(h: History)
    requires |h.dataOverwrites| == 0 && |h.removes| == 0
    ensures !StatusOf(h).localCollision
    ensures StatusOf(h).Clean() <==> !h.moveChanges && !h.gitChanges
  {
  }

  /** `status_can_push`. */
  predicate CanPush(push: Status, pull: Status)
  {
    push.CanExecute() && !pull.gitChanges
  }

  /** `status_can_push_both_changes`. */
  predicate CanPushBothChanges(push: Status, pull: Status)
  {
    push.BothChanges() && !pull.gitChanges
  }

  /** `status_can_pull`. */
  predicate CanPull(push: Status, pull: Status)
  {
    pull.CanExecute() && !push.gitChanges
  }

  /** `status_can_pull_both_changes`. */
  predicate CanPullBothChanges(push: Status, pull: Status)
  {
    pull.BothChanges() && !push.gitChanges
  }

  /** `status_clean`. */
  predicate StatusClean(push: Status, pull: Status)
  {
    push.Clean() && pull.Clean()
  }

  predicate AnyVerdict(push: Status, pull: Status)
  {
    CanPush(push, pull) || CanPull(push, pull) || CanPushBothChanges(push, pull) || CanPullBothChanges(push, pull)
  }

  /** `status_has_conflicts`. */
  predicate HasConflicts(push: Status, pull: Status)
  {
    if CanPull(push, pull) || CanPush(push, pull) then false
    else if CanPushBothChanges(push, pull) || CanPullBothChanges(push, pull) then false
    else !StatusClean(push, pull)
  }

  /** Every pair of statuses is exactly one of: some verdict applies, the statuses
      conflict, or both directions are clean. */
  lemma VerdictTrichotomy(push: Status, pull: Status)
    ensures AnyVerdict(push, pull) ==> !HasConflicts(push, pull) && !StatusClean(push, pull)
    ensures !AnyVerdict(push, pull) ==> (HasConflicts(push, pull) <==> !StatusClean(push, pull))
  {
    if CanPushBothChanges(push, pull) {
      assert push.BothChanges();
    }
    if CanPullBothChanges(push, pull) {
      assert pull.BothChanges();
    }
  }

  /** A plain verdict and the opposite direction's both-changes verdict never hold
      together, and neither do the two both-changes verdicts. */
  lemma VerdictsExclusive(push: Status, pull: Status)
    ensures !(CanPush(push, pull) && CanPullBothChanges(push, pull))
    ensures !(CanPull(push, pull) && CanPushBothChanges(push, pull))
    ensures !(CanPushBothChanges(push, pull) && CanPullBothChanges(push, pull))
    ensures !(CanPush(push, pull) && CanPushBothChanges(push, pull))
    ensures !(CanPull(push, pull) && CanPullBothChanges(push, pull))
  {
    if CanPushBothChanges(push, pull) {
      assert push.BothChanges();
    }
    if CanPullBothChanges(push, pull) {
      assert pull.BothChanges();
    }
  }

  /** The safe-move flags of a status run: `(can_safely_push, can_safely_pull)`,
      including the step that narrows them when both are set. */
  function SafeFlags(push: Status, pull: Status): (bool, bool)
  {
    var canPush, canPull := CanPush(push, pull), CanPull(push, pull);
    var safePull := canPull || CanPullBothChanges(push, pull);
    var safePush := canPush || CanPushBothChanges(push, pull);
    if safePull && safePush then (canPush, canPull) else (safePush, safePull)
  }

  /** The narrowing step never changes anything: the flags are simply "can push or
      push over git changes" and "can pull or pull over git changes", and both are
      set only when both plain verdicts hold. */
  lemma SafeFlagsNarrowingIsVacuous(push: Status, pull: Status)
    ensures SafeFlags(push, pull) == (CanPush(push, pull) || CanPushBothChanges(push, pull),
                                      CanPull(push, pull) || CanPullBothChanges(push, pull))
    ensures SafeFlags(push, pull).0 && SafeFlags(push, pull).1 ==> CanPush(push, pull) && CanPull(push, pull)
  {
    VerdictsExclusive(push, pull);
  }

  /** The direction `perform_safe_move` takes: push first, then pull. */
  function SafeDirection(push: Status, pull: Status): (d: Option<Action>)
    ensures d == Some(Action.Push) <==> CanPush(push, pull) || CanPushBothChanges(push, pull)
    ensures d == Some(Action.Pull) <==> !(CanPush(push, pull) || CanPushBothChanges(push, pull))
                                        && (CanPull(push, pull) || CanPullBothChanges(push, pull))
    ensures d.None? <==> !AnyVerdict(push, pull)
  {
    if CanPush(push, pull) || CanPushBothChanges(push, pull) then Some(Action.Push)
    else if CanPull(push, pull) || CanPullBothChanges(push, pull) then Some(Action.Pull)
    else None
  }

  /** A safe move is offered exactly when a direction exists to take. */
  lemma SafeMoveHasDirection(push: Status, pull: Status)
    ensures (SafeFlags(push, pull).0 || SafeFlags(push, pull).1) <==> SafeDirection(push, pull).Some?
  {
    SafeFlagsNarrowingIsVacuous(push, pull);
  }

  /** `status_conflict_string`. */
  function ConflictString(push: Status, pull: Status): (s: string)
    ensures push.CanExecute() && pull.JustGitChanges() ==> s == " could push, but there is something to GIT pull."
    ensures !(push.CanExecute() && pull.JustGitChanges()) && pull.CanExecute() && push.JustGitChanges() ==>
      s == " could pull, but there is something to GIT push."
  {
    if push.CanExecute() && pull.JustGitChanges() then " could push, but there is something to GIT pull."
    else if pull.CanExecute() && push.JustGitChanges() then " could pull, but there is something to GIT push."
    else "\nPUSH status:\n" + push.Text("push") + "\nPULL status:\n" + pull.Text("pull")
  }

  /** The "could push" message explains a refused push: git changes wait on the pull
      side, so the push verdict does not hold; symmetrically for pull. */
  lemma ConflictStringExplains(push: Status, pull: Status)
    ensures push.CanExecute() && pull.JustGitChanges() ==> !CanPush(push, pull) && !CanPushBothChanges(push, pull)
    ensures pull.CanExecute() && push.JustGitChanges() ==> !CanPull(push, pull) && !CanPullBothChanges(push, pull)
  {
  }

  /** `status_has_conflicts` of the older revision, which has no both-changes verdicts. */
  predicate HasConflictsWithoutBothChanges(push: Status, pull: Status)
  {
    if CanPull(push, pull) || CanPush(push, pull) then false else !StatusClean(push, pull)
  }

  /** The older conflict test reports every both-changes situation as a conflict. */
  lemma BothChangesWasAConflict(push: Status, pull: Status)
    requires CanPushBothChanges(push, pull) || CanPullBothChanges(push, pull)
    ensures HasConflictsWithoutBothChanges(push, pull) && !HasConflicts(push, pull)
  {
    VerdictsExclusive(push, pull);
    if CanPushBothChanges(push, pull) {
      assert push.BothChanges();
    } else {
      assert pull.BothChanges();
    }
  }

  /** `get_status` of the older revision: any collision, benign time-overwrites
      included, counts as a local collision. */
  function StatusOfWithoutSeverity(h: History): (s: Status)
    ensures s.localCollision <==> h.AnyCollisions()
    ensures !s.timeOverwrites && s.localChanges == h.moveChanges && s.gitChanges == h.gitChanges
  {
    Status(h.AnyCollisions(), h.moveChanges, h.gitChanges, false)
  }
}
