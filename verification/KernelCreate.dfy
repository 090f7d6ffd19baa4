/** What creating a task does to the tables, and what a failed creation leaves (`src/kernel/exec.rs`). */
module KernelCreate {
  import opened Prelude
  import opened Tables
  import opened Labels
  import opened Capabilities
  import Security
  import opened Descriptors
  import opened KernelSteps
  import opened KernelIds

  /** The slot a new process takes. */
  function FreeSlot(k: KernelState): nat {
    First(k.procs, FreeProc)
  }

  function FreeThreadSlot(k: KernelState): nat {
    First(k.threads, FreeThread)
  }

  /** Starting the thread of a process that has just been entered in `slot`. */
  lemma StartedOutcome(k: KernelState, k1: KernelState, slot: nat, p: Pcb, mtssOk: bool)
    requires slot < |k.procs| && k.procs[slot].None? && k1.procs == k.procs[slot := Some(p)] && k1.threads == k.threads
    requires ProcIds(k.procs, p.pid) && ThreadIds(k.threads, k1.nextThread) && p.threadCount == 0
    ensures var (k2, thread) := Started(k1, p.pid, mtssOk);
            && (thread.Some? <==> mtssOk && FreeThreadSlot(k) < |k.threads|)
            && k2.queues == k1.queues && k2.depth == k1.depth && k2.nextPid == k1.nextPid && k2.sequence == k1.sequence
            && k2.nextThread == k1.nextThread + (if FreeThreadSlot(k) < |k.threads| then 1 else 0)
            && (thread.None? ==> k2.procs == k.procs && k2.threads == k.threads
                                 && k2.counts == Drop(k1.counts, p.files)
                                 && k2.security == RevokeTask(k1.security, p.pid))
            && (thread.Some? ==> k2.procs == k.procs[slot := Some(p.(threadCount := 1))]
                                 && (var thread := Tcb(k1.nextThread, p.pid, ThreadReady, None);
                                     k2.threads == k.threads[FreeThreadSlot(k) := Some(thread)])
                                 && k2.counts == k1.counts && k2.security == k1.security)
  {
    hide First, Drop, RevokeTask;
    assert ProcIds(k1.procs, p.pid + 1);
    LocateIs(k1.procs, p.pid + 1, slot);
    var made := CreateThread(k1, p.pid);
    var k2 := made.0;
    var t := FreeThreadSlot(k);
    if t == |k.threads| {
      assert k1.procs[slot := None] == k.procs;
    } else {
      assert k2.procs == k.procs[slot := Some(p.(threadCount := 1))];
      FirstIs(k2.threads, HasThread(k1.nextThread), t);
      var k3 := RemoveThread(k2, k1.nextThread);
      assert k3.threads == k.threads;
      assert ProcIds(k2.procs, p.pid + 1);
      LocateIs(k2.procs, p.pid + 1, slot);
      assert k3.procs == k.procs[slot := Some(p)];
      LocateIs(k3.procs, p.pid + 1, slot);
      assert k3.procs[slot := None] == k.procs;
    }
  }

  /** The security state in which a new task is registered and has inherited. */
  function Joined(s: Security.SecurityState, p: Pcb, creds: Credentials): (Security.SecurityState, bool) {
    var (s1, r1) := Security.Apply(s, Security.Register(p.pid, creds));
    if r1.Err? || p.parent.None? then (s1, r1.Ok?)
    else
      var (s2, r2) := Security.Apply(s1, Security.Derive(p.parent.value, p.pid));
      (s2, r2.Ok?)
  }

  predicate RegisterOk(s: Security.SecurityState, p: Pcb, creds: Credentials) {
    Security.Apply(s, Security.Register(p.pid, creds)).1.Ok?
  }

  /** Revoking a task that has just joined leaves no trace of it but the used ids. */
  lemma RevocationUndoesJoining(s: Security.SecurityState, p: Pcb, creds: Credentials)
    requires Security.Below(s, p.pid) && RegisterOk(s, p, creds)
    ensures var t := RevokeTask(Joined(s, p, creds).0, p.pid);
            t.domains == s.domains && t.ledger.records == s.ledger.records
  {
    hide InsertAll, First, Security.SeedGrants, Security.DerivedGrants, Security.Registered, Without,
      Security.DomainRevoked;
    Security.NewIsUnknown(s, p.pid);
    var s1 := Security.Apply(s, Security.Register(p.pid, creds)).0;
    var s2 := Joined(s, p, creds).0;
    if p.parent.Some? {
      InsertAllAdds(s1.ledger, p.pid, Security.DerivedGrants(s1.ledger.records, p.parent.value));
    }
    assert AddedFor(s1.ledger.records, s2.ledger.records, p.pid);
    Security.RevocationUndoesRegistration(s.domains, s.ledger, p.pid, creds, s2.ledger);
  }

  /**
   * Every way `create_process_task` can go once the descriptors are prepared:
   * a failure leaves processes, threads and messages alone and, once the task
   * was registered, the domains and capability records too.
   */
  lemma CreateFromOutcome(k: KernelState, prepared: Prepared, creds: Credentials, mtssOk: bool)
    requires FreeSlot(k) < |k.procs|
    requires ProcIds(k.procs, k.nextPid) && ThreadIds(k.threads, k.nextThread) && Security.Below(k.security, k.nextPid)
    requires prepared.pcb.Some? ==> prepared.pcb.value.pid == k.nextPid && prepared.pcb.value.threadCount == 0
    ensures var (k2, created) := CreateFrom(k, prepared, creds, mtssOk);
            && k2.queues == k.queues && k2.depth == k.depth && k2.sequence == k.sequence
            && k2.nextPid == k.nextPid + 1 && k.nextThread <= k2.nextThread <= k.nextThread + 1
            && (created.Some? ==> created.value == k.nextPid && prepared.pcb.Some?)
            && (created.Some? <==> && prepared.pcb.Some? && Joined(k.security, prepared.pcb.value, creds).1
                                   && mtssOk && FreeThreadSlot(k) < |k.threads|)
            && (prepared.pcb.None? ==> k2.procs == k.procs && k2.threads == k.threads && k2.security == k.security
                                       && k2.counts == prepared.counts)
            && (prepared.pcb.Some? ==>
                  var p := prepared.pcb.value;
                  if created.Some? then
                    && FreeThreadSlot(k) < |k.threads|
                    && k2.procs == k.procs[FreeSlot(k) := Some(p.(threadCount := 1))]
                    && k2.threads == k.threads[FreeThreadSlot(k) := Some(Tcb(k.nextThread, p.pid, ThreadReady, None))]
                    && k2.nextThread == k.nextThread + 1
                    && k2.counts == prepared.counts && k2.security == Joined(k.security, p, creds).0
                    && RegisterOk(k.security, p, creds)
                  else
                    && k2.procs == k.procs && k2.threads == k.threads
                    && k2.counts == Drop(prepared.counts, p.files)
                    && k2.security.domains == k.security.domains
                    && (RegisterOk(k.security, p, creds) ==> k2.security.ledger.records == k.security.ledger.records))
  {
    hide First, Drop, RevokeTask, Security.Apply, Started, Enroll, Joined, RegisterOk;
    var slot := FreeSlot(k);
    if prepared.pcb.Some? {
      var p := prepared.pcb.value;
      EnrollOutcome(k, slot, prepared, creds);
      var (k1, ok) := Enroll(k, slot, prepared, creds);
      if ok {
        StartedOutcome(k, k1, slot, p, mtssOk);
        RevocationUndoesJoining(k.security, p, creds);
        var (k2, thread) := Started(k1, p.pid, mtssOk);
        assert CreateFrom(k, prepared, creds, mtssOk).0 == k2;
        assert CreateFrom(k, prepared, creds, mtssOk).1.Some? == thread.Some?;
        assert thread.None? ==> k2.procs == k.procs;
      }
    } else {
      EnrollNothing(k, slot, prepared, creds);
    }
  }

  lemma EnrollNothing(k: KernelState, slot: nat, prepared: Prepared, creds: Credentials)
    requires slot < |k.procs| && prepared.pcb.None?
    ensures Enroll(k, slot, prepared, creds) == (k.(nextPid := k.nextPid + 1, counts := prepared.counts), false)
  {
  }

  lemma EnrollOutcome(k: KernelState, slot: nat, prepared: Prepared, creds: Credentials)
    requires slot < |k.procs| && prepared.pcb.Some? && Security.Below(k.security, prepared.pcb.value.pid)
    ensures var (k1, ok), p := Enroll(k, slot, prepared, creds), prepared.pcb.value;
            && (ok <==> Joined(k.security, p, creds).1)
            && (ok ==> RegisterOk(k.security, p, creds)
                       && k1 == k.(nextPid := k.nextPid + 1, counts := prepared.counts,
                                   security := Joined(k.security, p, creds).0, procs := k.procs[slot := Some(p)]))
            && (!ok ==> && k1 == k.(nextPid := k.nextPid + 1, counts := Drop(prepared.counts, p.files),
                                    security := k1.security)
                        && k1.security.domains == k.security.domains
                        && (RegisterOk(k.security, p, creds) ==>
                            k1.security.ledger.records == k.security.ledger.records))
  {
    hide First, Drop, RevokeTask, Security.Apply;
    var p := prepared.pcb.value;
    if RegisterOk(k.security, p, creds) {
      RevocationUndoesJoining(k.security, p, creds);
      if p.parent.Some? {
        var s1 := Security.Apply(k.security, Security.Register(p.pid, creds)).0;
        var r2 := Security.Apply(s1, Security.Derive(p.parent.value, p.pid)).1;
        assert r2.Ok? || r2.Err?;
      }
    } else {
      FailedRegistration(k.security, p.pid, creds);
    }
  }

  lemma FailedRegistration(s: Security.SecurityState, pid: ProcessId, creds: Credentials)
    ensures Security.Apply(s, Security.Register(pid, creds)).1.Err? ==>
              Security.Apply(s, Security.Register(pid, creds)).0.domains == s.domains
  {
    hide First, InsertAll, Security.SeedGrants, Without;
  }
}
