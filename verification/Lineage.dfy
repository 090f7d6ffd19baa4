/**
 * How far authority travels: runs of authorised task steps over the domain
 * table (`src/subkernel/mod.rs`, `src/kernel/exec.rs`).
 */
module Lineage {
  import opened Prelude
  import opened Labels
  import opened Security

  datatype TaskStep =
    | Spawn(parent: ProcessId, child: ProcessId, creds: Credentials)
    | Boot(first: ProcessId, creds: Credentials)
    | Fork(parent: ProcessId, child: ProcessId)
    | CloneThread(caller: ProcessId)
    | Exec(request: ExecRequest)
    | Exit(pid: ProcessId)

  /** One step, carried out or failed; a failed step leaves the domains as they were. */
  ghost predicate Steps(s: SecurityState, step: TaskStep, t: SecurityState) {
    && (Child(step).Some? ==> DomainOf(s.domains, Child(step).value).None?)
    && (t.domains == s.domains || Succeeds(s, step, t))
  }

  ghost predicate Succeeds(s: SecurityState, step: TaskStep, t: SecurityState) {
    match step
    case Spawn(parent, child, creds) => Creates(s, parent, child, creds, t)
    case Boot(child, creds) => t.domains == Registered(s.domains, s.ledger, child, creds).domains
    case Fork(parent, child) =>
      DomainOf(s.domains, parent).Some? && Creates(s, parent, child, DomainOf(s.domains, parent).value.creds, t)
    case CloneThread(_) => false
    case Exec(request) =>
      var d := DomainOf(s.domains, request.caller);
      && d.Some? && ExecAllowed(d.value.creds, request)
      && t.domains == Registered(s.domains, s.ledger, request.caller, request.requested).domains
    case Exit(pid) => t.domains == DomainRevoked(s.domains, pid)
  }

  ghost predicate Creates(s: SecurityState, parent: ProcessId, child: ProcessId, creds: Credentials, t: SecurityState) {
    var d := DomainOf(s.domains, parent);
    && d.Some? && SpawnAllowed(d.value.creds, creds)
    && t.domains == Registered(s.domains, s.ledger, child, creds).domains
  }

  function Child(step: TaskStep): Option<ProcessId> {
    match step
    case Spawn(_, child, _) => Some(child)
    case Boot(child, _) => Some(child)
    case Fork(_, child) => Some(child)
    case _ => None
  }

  /** The step creates a task on behalf of a member of `family`; tasks the kernel starts itself have no parent. */
  predicate FromFamily(step: TaskStep, family: set<ProcessId>) {
    (step.Spawn? || step.Fork?) && step.parent in family
  }

  /** The tasks `root` has brought forth, itself included, once `steps` are done. */
  ghost function Family(root: ProcessId, steps: seq<TaskStep>): set<ProcessId> {
    if steps == [] then {root}
    else
      var family, step := Family(root, steps[..|steps| - 1]), steps[|steps| - 1];
      if FromFamily(step, family) then family + {Child(step).value} else family
  }

  /** No task id is given out twice. */
  ghost predicate FreshChildren(root: ProcessId, steps: seq<TaskStep>) {
    forall i :: 0 <= i < |steps| && Child(steps[i]).Some? ==> Child(steps[i]).value !in Family(root, steps[..i])
  }

  /** No exec of the run relies on a signed service daemon. */
  ghost predicate Unsigned(steps: seq<TaskStep>) {
    forall i :: 0 <= i < |steps| && steps[i].Exec? ==> !steps[i].request.signedDaemon
  }

  ghost predicate IsRun(states: seq<SecurityState>, steps: seq<TaskStep>) {
    && |states| == |steps| + 1
    && forall i :: 0 <= i < |steps| ==> Steps(states[i], steps[i], states[i + 1])
  }

  /** Without system privilege, and within what `start` holds. */
  ghost predicate Confined(start: Credentials, c: Credentials) {
    !SystemPrivileged(c) && CanDelegate(start, c)
  }

  ghost predicate AllConfined(start: Credentials, family: set<ProcessId>, domains: Domains) {
    forall pid :: pid in family && DomainOf(domains, pid).Some? ==> Confined(start, DomainOf(domains, pid).value.creds)
  }

  lemma DelegatedIsConfined(start: Credentials, holder: Credentials, requested: Credentials)
    requires Confined(start, holder) && CanDelegate(holder, requested)
    ensures Confined(start, requested)
  {
    DelegationTransitive(start, holder, requested);
    DelegationGivesNoPrivilege(holder, requested);
  }

  /** Registering confined credentials for one task keeps a family confined. */
  lemma RegistrationConfines(start: Credentials, family: set<ProcessId>, s: SecurityState, pid: ProcessId,
                             creds: Credentials)
    requires DistinctDomains(s.domains) && AllConfined(start, family - {pid}, s.domains)
    requires pid in family ==> Confined(start, creds)
    requires Registered(s.domains, s.ledger, pid, creds).result.Ok?
    ensures var after := Registered(s.domains, s.ledger, pid, creds).domains;
            DistinctDomains(after) && AllConfined(start, family, after)
  {
    hide Registered, DomainOf, Confined, DistinctDomains;
    var after := Registered(s.domains, s.ledger, pid, creds).domains;
    forall other | other in family && DomainOf(after, other).Some?
      ensures Confined(start, DomainOf(after, other).value.creds)
    {
      RegistrationIsLocal(s.domains, s.ledger, pid, creds, other);
      if other != pid {
        assert other in family - {pid};
      }
    }
    RegistrationIsLocal(s.domains, s.ledger, pid, creds, pid);
  }

  lemma FailureKeepsDomains(s: SecurityState, pid: ProcessId, creds: Credentials)
    ensures Registered(s.domains, s.ledger, pid, creds).result.Err? ==>
              Registered(s.domains, s.ledger, pid, creds).domains == s.domains
  {
  }

  lemma CreationConfines(start: Credentials, family: set<ProcessId>, s: SecurityState, parent: ProcessId,
                         child: ProcessId, creds: Credentials, t: SecurityState)
    requires DistinctDomains(s.domains) && AllConfined(start, family, s.domains)
    requires child !in family && Creates(s, parent, child, creds, t) && t.domains != s.domains
    ensures DistinctDomains(t.domains)
    ensures AllConfined(start, if parent in family then family + {child} else family, t.domains)
  {
    var next := if parent in family then family + {child} else family;
    assert next - {child} == family;
    FailureKeepsDomains(s, child, creds);
    hide Registered, DomainOf, Confined, DistinctDomains, CanDelegate, Allows;
    if parent in family {
      var holder := DomainOf(s.domains, parent).value.creds;
      ConfinedIsUnprivileged(start, holder);
      DelegatedIsConfined(start, holder, creds);
    }
    RegistrationConfines(start, next, s, child, creds);
  }

  lemma ConfinedIsUnprivileged(start: Credentials, c: Credentials)
    requires Confined(start, c)
    ensures !SystemPrivileged(c)
  {
  }

  lemma StepConfines(start: Credentials, root: ProcessId, steps: seq<TaskStep>, s: SecurityState, step: TaskStep,
                     t: SecurityState)
    requires DistinctDomains(s.domains) && AllConfined(start, Family(root, steps), s.domains)
    requires Steps(s, step, t)
    requires Child(step).Some? ==> Child(step).value !in Family(root, steps)
    requires step.Exec? ==> !step.request.signedDaemon
    ensures DistinctDomains(t.domains) && AllConfined(start, Family(root, steps + [step]), t.domains)
  {
    var family := Family(root, steps);
    assert (steps + [step])[..|steps|] == steps;
    var next := Family(root, steps + [step]);
    assert next == if FromFamily(step, family) then family + {Child(step).value} else family;
    hide Family, Registered, DistinctDomains, Confined;
    if t.domains == s.domains {
    } else {
      match step
      case Spawn(parent, child, creds) =>
        CreationConfines(start, family, s, parent, child, creds, t);
      case Boot(child, creds) =>
        assert family - {child} == family;
        FailureKeepsDomains(s, child, creds);
        RegistrationConfines(start, family, s, child, creds);
      case Fork(parent, child) =>
        CreationConfines(start, family, s, parent, child, DomainOf(s.domains, parent).value.creds, t);
      case CloneThread(_) =>
      case Exec(request) =>
        ExecConfines(start, family, s, request, t);
      case Exit(pid) =>
        ExitConfines(start, family, s, pid, t);
    }
  }

  lemma ExecConfines(start: Credentials, family: set<ProcessId>, s: SecurityState, request: ExecRequest,
                     t: SecurityState)
    requires DistinctDomains(s.domains) && AllConfined(start, family, s.domains)
    requires Succeeds(s, Exec(request), t) && !request.signedDaemon && t.domains != s.domains
    ensures DistinctDomains(t.domains) && AllConfined(start, family, t.domains)
  {
    FailureKeepsDomains(s, request.caller, request.requested);
    hide Registered, DomainOf, Confined, DistinctDomains, CanDelegate, Allows;
    if request.caller in family {
      var holder := DomainOf(s.domains, request.caller).value.creds;
      ConfinedIsUnprivileged(start, holder);
      DelegatedIsConfined(start, holder, request.requested);
    }
    RegistrationConfines(start, family, s, request.caller, request.requested);
  }

  lemma ExitConfines(start: Credentials, family: set<ProcessId>, s: SecurityState, pid: ProcessId, t: SecurityState)
    requires DistinctDomains(s.domains) && AllConfined(start, family, s.domains)
    requires t.domains == DomainRevoked(s.domains, pid)
    ensures DistinctDomains(t.domains) && AllConfined(start, family, t.domains)
  {
    hide DomainRevoked, DomainOf, Confined, DistinctDomains;
    forall other | other in family && DomainOf(t.domains, other).Some?
      ensures Confined(start, DomainOf(t.domains, other).value.creds)
    {
      RevocationIsLocal(s.domains, pid, other);
    }
    RevocationIsLocal(s.domains, pid, pid);
  }

  /**
   * From a task without system privilege, every task reached by authorised
   * spawns, forks, clones and unsigned execs stays without system privilege
   * and within the label and the capabilities it started from, whatever other
   * tasks do in between.
   */
  lemma {:induction false} LineageIsConfined(states: seq<SecurityState>, steps: seq<TaskStep>, root: ProcessId)
    requires IsRun(states, steps) && FreshChildren(root, steps) && Unsigned(steps)
    requires DistinctDomains(states[0].domains) && DomainOf(states[0].domains, root).Some?
    requires !SystemPrivileged(DomainOf(states[0].domains, root).value.creds)
    ensures DistinctDomains(states[|steps|].domains)
    ensures AllConfined(DomainOf(states[0].domains, root).value.creds, Family(root, steps), states[|steps|].domains)
    decreases |steps|
  {
    hide DistinctDomains, SystemPrivileged, AllConfined, DomainOf, FreshChildren, Unsigned, Family, Steps;
    var start := DomainOf(states[0].domains, root).value.creds;
    if steps == [] {
      RootIsConfined(states[0].domains, root);
    } else {
      var n := |steps| - 1;
      var front, earlier := steps[..n], states[..n + 1];
      RunPrefix(states, steps, root);
      hide IsRun;
      LineageIsConfined(earlier, front, root);
      StepConfines(start, root, front, states[n], steps[n], states[n + 1]);
      assert front + [steps[n]] == steps;
    }
  }

  lemma RootIsConfined(domains: Domains, root: ProcessId)
    requires DomainOf(domains, root).Some? && !SystemPrivileged(DomainOf(domains, root).value.creds)
    ensures AllConfined(DomainOf(domains, root).value.creds, Family(root, []), domains)
  {
    hide CanDelegate, SystemPrivileged, DomainOf;
    DelegationReflexive(DomainOf(domains, root).value.creds);
  }

  lemma RunPrefix(states: seq<SecurityState>, steps: seq<TaskStep>, root: ProcessId)
    requires IsRun(states, steps) && FreshChildren(root, steps) && Unsigned(steps) && steps != []
    ensures var n := |steps| - 1;
            && IsRun(states[..n + 1], steps[..n]) && FreshChildren(root, steps[..n]) && Unsigned(steps[..n])
            && Steps(states[n], steps[n], states[n + 1])
            && (Child(steps[n]).Some? ==> Child(steps[n]).value !in Family(root, steps[..n]))
            && (steps[n].Exec? ==> !steps[n].request.signedDaemon)
  {
    hide Steps, Family;
    var n := |steps| - 1;
    assert forall i :: 0 <= i < n ==> steps[..n][..i] == steps[..i];
  }
}
