/** What every run of the subagent manager keeps: records only move forward, registries stay bounded, and
    receipts tell the truth. */
module SubagentRuns {
  import opened Transcript
  import opened Subagents

  function Rank(s: State): nat {
    match s
    case Queued => 0
    case Running => 1
    case Stopping => 2
    case Ended(_) => 3
  }

  /** What one record may become: its state only moves forward, its outcome is sealed once, its history only
      grows, and with a sealed outcome no message is accepted or delivered any more. */
  predicate Forward(t: Task, u: Task) {
    && Rank(t.state) <= Rank(u.state)
    && (t.outcome.Some? ==> u.outcome.Some? && u.outcome.value.kind == t.outcome.value.kind)
    && (t.outcome.Some? ==> u.sent == t.sent && u.delivered == t.delivered)
    && (Finished(t) ==> u.state == t.state && u.output == t.output && u.receipts == t.receipts)
    && t.sent <= u.sent && t.delivered <= u.delivered
  }

  lemma TaskMovesForward(t: Task, e: Event, free: bool, max: nat)
    requires TaskOk(t)
    ensures Forward(t, TaskStep(t, e, free, max))
  {
    if e.Send? || e.Drain? {
      InboxMovesForward(t, e, free, max);
    }
  }

  lemma InboxMovesForward(t: Task, e: Event, free: bool, max: nat)
    requires TaskOk(t) && (e.Send? || e.Drain?)
    ensures Forward(t, TaskStep(t, e, free, max))
  {
  }

  lemma CompletionMovesForward(t: Task, u: Task, cleanupError: Option<string>, max: nat)
    requires !Finished(t) && u.outcome.Some? && (t.outcome.Some? ==> u.outcome == t.outcome)
    requires u.sent == t.sent && u.delivered == t.delivered
    ensures Forward(t, Completed(u, cleanupError, max))
  {
  }

  lemma CollectedTask(m: Manager, id: nat, message: string)
    requires id in m.tasks && TaskOk(m.tasks[id])
    ensures var n := Collected(m, id, message);
            && n.tasks.Keys == m.tasks.Keys && n.created == m.created && n.tasks == m.tasks[id := n.tasks[id]]
            && Forward(m.tasks[id], n.tasks[id])
  {
    var t := m.tasks[id];
    if t.exec.AwaitingCleanup? && t.exec.heard.Some? {
      CleanupWasHeard(t);
      CompletionMovesForward(t, t.(exec := Announcing), if t.exec.heard.value.Failed? then Some(message) else None,
                             m.max);
    }
    assert m.tasks == m.tasks[id := t];
  }

  lemma DepartedTask(m: Manager, id: nat, message: string)
    requires id in m.tasks && m.tasks[id].exec.Exited? && TaskOk(m.tasks[id])
    ensures var n := Departed(m, id, message);
            && n.created == m.created && n.tasks.Keys == m.tasks.Keys && n.tasks == m.tasks[id := n.tasks[id]]
            && Forward(m.tasks[id], n.tasks[id]) && id !in n.running
            && (n.tasks[id].cleanup.Cleaned? ==> m.tasks[id].cleanup.Cleaned?)
  {
    var t := m.tasks[id];
    if !Finished(t) {
      CompletionMovesForward(t, Abandoned(t, message), None, m.max);
    }
  }

  lemma DoneTask(m: Manager, id: nat, message: string)
    requires Inv(m) && id in m.tasks
    ensures var n := DoneCallback(m, id, message);
            && n.created == m.created && n.tasks.Keys <= m.tasks.Keys
            && (forall i :: i in m.tasks && i != id ==> i in n.tasks && n.tasks[i] == m.tasks[i])
            && (id in n.tasks ==> Forward(m.tasks[id], n.tasks[id]))
            && (id !in n.tasks ==> m.tasks[id].exec.Exited? && m.tasks[id].cleanup.Cleaned?)
            && (id !in n.tasks ==> id !in n.running && id in n.finishes)
  {
    assert TaskOk(m.tasks[id]);
    if m.tasks[id].exec.Exited? {
      DepartedTask(m, id, message);
      DepartKeepsInv(m, id, message);
      assert Booked(Departed(m, id, message), id);
    }
  }

  /** A step touches the record that it names and no other one. */
  lemma StepFrame(m: Manager, e: Event, id: nat)
    requires Inv(m) && id in m.tasks && (e.Create? || e.Close? || e.id != id)
    ensures id in Step(m, e).tasks && Step(m, e).tasks[id] == m.tasks[id]
  {
    if e.Create? {
      IdIsOld(m, id);
    } else if !e.Close? && e.id in m.tasks {
      if e.Collect? {
        CollectFrame(m, e.id, e.message, id);
      } else if e.TaskDone? {
        DoneTask(m, e.id, e.message);
      } else if e.CleanupCallback? {
        ReleaseFrame(m, e.id, id);
      } else {
        PlainFrame(m, e.id, e, id);
      }
    }
  }

  lemma CollectFrame(m: Manager, other: nat, message: string, id: nat)
    requires Inv(m) && id in m.tasks && other in m.tasks && other != id
    ensures id in Collected(m, other, message).tasks && Collected(m, other, message).tasks[id] == m.tasks[id]
  {
    OneTaskOk(m, other);
    CollectedTask(m, other, message);
  }

  lemma PlainFrame(m: Manager, other: nat, e: Event, id: nat)
    requires id in m.tasks && other in m.tasks && other != id
    ensures id in Plain(m, other, e).tasks && Plain(m, other, e).tasks[id] == m.tasks[id]
  {
  }

  lemma ReleaseFrame(m: Manager, other: nat, id: nat)
    requires id in m.tasks && other != id
    ensures id in Release(m, other).tasks && Release(m, other).tasks[id] == m.tasks[id]
  {
  }

  lemma OneTaskOk(m: Manager, id: nat)
    requires Inv(m) && id in m.tasks
    ensures TaskOk(m.tasks[id])
  {
  }

  lemma StepMovesForward(m: Manager, e: Event, id: nat)
    requires Inv(m) && id in m.tasks && id in Step(m, e).tasks
    ensures Forward(m.tasks[id], Step(m, e).tasks[id])
  {
    if e.Create? || e.Close? || e.id != id {
      StepFrame(m, e, id);
    } else if e.Collect? {
      assert TaskOk(m.tasks[id]);
      CollectedTask(m, id, e.message);
    } else if e.TaskDone? {
      DoneTask(m, id, e.message);
    } else if !e.CleanupCallback? {
      assert TaskOk(m.tasks[id]);
      TaskMovesForward(m.tasks[id], e, |m.admitted| < m.slots, m.max);
    }
  }

  /** A step creates at most the record with the next id. */
  lemma StepCreates(m: Manager, e: Event)
    requires Inv(m)
    ensures var n := Step(m, e);
            m.created <= n.created && n.tasks.Keys <= m.tasks.Keys + {m.created}
  {
    if !e.Create? && !e.Close? && e.id in m.tasks {
      assert TaskOk(m.tasks[e.id]);
      if e.Collect? {
        CollectedTask(m, e.id, e.message);
      } else if e.TaskDone? {
        DoneTask(m, e.id, e.message);
      }
    }
  }

  /** Over every run, as long as a record exists. */
  lemma {:induction false} RunMovesForward(m: Manager, run: seq<Event>, id: nat)
    requires Inv(m) && id in m.tasks && id in After(m, run).tasks
    ensures Forward(m.tasks[id], After(m, run).tasks[id])
  {
    if run != [] {
      var init := run[..|run| - 1];
      RunKeepsInv(m, init);
      StillThere(m, run, id);
      RunMovesForward(m, init, id);
      StepMovesForward(After(m, init), run[|run| - 1], id);
    }
  }

  lemma {:induction false} RunKeepsInv(m: Manager, run: seq<Event>)
    requires Inv(m)
    ensures Inv(After(m, run)) && m.created <= After(m, run).created
  {
    if run != [] {
      var init := run[..|run| - 1];
      RunKeepsInv(m, init);
      StepKeepsInv(After(m, init), run[|run| - 1]);
      StepCreates(After(m, init), run[|run| - 1]);
    }
  }

  /** A released record never comes back. */
  lemma NotRevived(m: Manager, e: Event, id: nat)
    requires Inv(m) && id < m.created && id in Step(m, e).tasks
    ensures id in m.tasks
  {
    StepCreates(m, e);
  }

  lemma StaysClosed(m: Manager, e: Event)
    requires m.closed
    ensures Step(m, e).closed
  {
  }

  lemma ClosedCollect(m: Manager, id: nat, message: string)
    requires Inv(m) && id in m.tasks
    ensures Collected(m, id, message).created == m.created && Collected(m, id, message).tasks.Keys == m.tasks.Keys
  {
    OneTaskOk(m, id);
    CollectedTask(m, id, message);
  }

  lemma OtherStepCreatesNothing(m: Manager, e: Event)
    requires !e.Create? && !e.Collect? && !e.TaskDone?
    ensures Step(m, e).created == m.created && Step(m, e).tasks.Keys <= m.tasks.Keys
  {
  }

  lemma ClosedStep(m: Manager, e: Event)
    requires Inv(m) && m.closed
    ensures Step(m, e).created == m.created && Step(m, e).tasks.Keys <= m.tasks.Keys
  {
    if e.Collect? {
      if e.id in m.tasks {
        ClosedCollect(m, e.id, e.message);
      }
    } else if e.TaskDone? {
      if e.id in m.tasks {
        DoneTask(m, e.id, e.message);
      }
    } else if !e.Create? {
      OtherStepCreatesNothing(m, e);
    }
  }

  /** Once the admission is closed, no run creates a record: the registry only shrinks. */
  lemma {:induction false} ClosedAdmitsNothing(m: Manager, run: seq<Event>)
    requires Inv(m) && m.closed
    ensures var n := After(m, run);
            n.closed && n.created == m.created && n.tasks.Keys <= m.tasks.Keys
  {
    if run != [] {
      ClosedAdmitsNothing(m, run[..|run| - 1]);
      RunKeepsInv(m, run[..|run| - 1]);
      StaysClosed(After(m, run[..|run| - 1]), run[|run| - 1]);
      ClosedStep(After(m, run[..|run| - 1]), run[|run| - 1]);
    }
  }

  lemma IdIsOld(m: Manager, id: nat)
    requires Inv(m) && id in m.tasks
    ensures id < m.created
  {
    assert Booked(m, id);
  }

  lemma StillThere(m: Manager, run: seq<Event>, id: nat)
    requires Inv(m) && run != [] && id in m.tasks && id in After(m, run).tasks
    ensures id in After(m, run[..|run| - 1]).tasks
  {
    var init := run[..|run| - 1];
    IdIsOld(m, id);
    RunKeepsInv(m, init);
    NotRevived(After(m, init), run[|run| - 1], id);
  }

  /** A record leaves the registry only when its execution has ended and its completion callback has run,
      its cleanup has succeeded and its terminal status is stored. */
  lemma ReleasedOnlyWhenSafe(m: Manager, e: Event, id: nat)
    requires Inv(m) && id in m.tasks && id !in Step(m, e).tasks
    ensures (e == CleanupCallback(id) && m.tasks[id].exec.Gone?)
            || (e.TaskDone? && e.id == id && m.tasks[id].exec.Exited?)
    ensures m.tasks[id].cleanup.Cleaned?
    ensures id !in Step(m, e).running && id in Step(m, e).finishes
  {
    if e.Create? || e.Close? || e.id != id {
      StepFrame(m, e, id);
    } else if e.Collect? {
      assert TaskOk(m.tasks[id]);
      CollectedTask(m, id, e.message);
    } else if e.TaskDone? {
      DoneTask(m, id, e.message);
    } else {
      assert Booked(m, id);
    }
  }

  /** The two registries of every run stay within their bounds, registered executions belong to owned records,
      at most `slots` executions are admitted at a time, and no task finishes twice. */
  lemma RegistriesAreBounded(slots: nat, max: nat, run: seq<Event>)
    ensures var m := After(Fresh(slots, max), run);
            && |m.tasks| <= 128 && |m.terminal| <= 128 && |m.admitted| <= slots
            && m.running <= m.tasks.Keys && Distinct(m.finishes)
  {
    EveryRunKeepsInv(slots, max, run);
    SlotsStay(slots, max, run);
  }

  lemma StepKeepsSlots(m: Manager, e: Event)
    ensures Step(m, e).slots == m.slots
  {
  }

  lemma {:induction false} SlotsStay(slots: nat, max: nat, run: seq<Event>)
    ensures After(Fresh(slots, max), run).slots == slots
  {
    if run != [] {
      SlotsStay(slots, max, run[..|run| - 1]);
      StepKeepsSlots(After(Fresh(slots, max), run[..|run| - 1]), run[|run| - 1]);
    }
  }

  // ----- the terminal state

  /** The execution waits for its cleanup and has heard that it failed. */
  predicate HeardFailure(t: Task) {
    t.exec == AwaitingCleanup(Some(Failed))
  }

  /** The event makes the task with this record terminal, as an error because its cleanup failed. */
  predicate FailsBy(t: Task, e: Event) {
    e.Collect? && HeardFailure(t)
  }

  /** The event makes the record `t` terminal, and `u` is what it becomes. */
  predicate Verdict(t: Task, e: Event, id: nat, u: Task) {
    && !Finished(t) && Finished(u) && (e.Collect? || e.TaskDone?) && e.id == id && u.outcome.Some?
    && u.cleanupError == FailsBy(t, e)
    && u.state.kind == if FailsBy(t, e) then Error else u.outcome.value.kind
  }

  /** What makes a task terminal, and as what: an execution that collects the end of its cleanup, with an error
      if this was a failure, or the completion callback, whatever becomes of the cleanup. */
  lemma VerdictOfAStep(m: Manager, e: Event, id: nat)
    requires Inv(m) && id in m.tasks && id in Step(m, e).tasks
    requires !Finished(m.tasks[id]) && Finished(Step(m, e).tasks[id])
    ensures Verdict(m.tasks[id], e, id, Step(m, e).tasks[id])
  {
    if e.Create? || e.Close? || e.id != id {
      StepFrame(m, e, id);
    } else if e.Collect? {
      CollectVerdict(m, id, e.message);
    } else if e.TaskDone? {
      DoneVerdict(m, id, e.message);
    } else {
      PlainVerdict(m, id, e);
    }
  }

  lemma CollectVerdict(m: Manager, id: nat, message: string)
    requires Inv(m) && id in m.tasks && !Finished(m.tasks[id]) && Finished(Collected(m, id, message).tasks[id])
    ensures var (t, u) := (m.tasks[id], Collected(m, id, message).tasks[id]);
            && u.outcome.Some? && u.cleanupError == HeardFailure(t)
            && u.state.kind == if HeardFailure(t) then Error else u.outcome.value.kind
  {
    OneTaskOk(m, id);
  }

  lemma DoneVerdict(m: Manager, id: nat, message: string)
    requires Inv(m) && id in m.tasks && id in DoneCallback(m, id, message).tasks
    requires !Finished(m.tasks[id]) && Finished(DoneCallback(m, id, message).tasks[id])
    ensures var u := DoneCallback(m, id, message).tasks[id];
            u.outcome.Some? && !u.cleanupError && u.state.kind == u.outcome.value.kind
  {
    OneTaskOk(m, id);
  }

  lemma PlainVerdict(m: Manager, id: nat, e: Event)
    requires Inv(m) && id in m.tasks && id in Step(m, e).tasks && !Finished(m.tasks[id])
    requires !e.Create? && !e.Close? && !e.Collect? && !e.TaskDone? && e.id == id
    ensures !Finished(Step(m, e).tasks[id])
  {
    OneTaskOk(m, id);
    if !e.CleanupCallback? {
      StepFacts(m.tasks[id], e, |m.admitted| < m.slots, m.max);
    }
  }

  /** A record that knows of a failed cleanup. */
  predicate KnowsFailure(t: Task) {
    t.cleanup.Failed? || HeardFailure(t)
  }

  lemma FailureIsNews(t: Task, e: Event, free: bool, max: nat)
    requires KnowsFailure(TaskStep(t, e, free, max)) && !KnowsFailure(t)
    ensures e.CleanupEnds? && e.how == Failed
  {
  }

  lemma FailureOfAStep(m: Manager, e: Event, id: nat)
    requires Inv(m) && id in m.tasks && id in Step(m, e).tasks
    requires KnowsFailure(Step(m, e).tasks[id]) && !KnowsFailure(m.tasks[id])
    ensures e == CleanupEnds(id, Failed)
  {
    if e.Create? || e.Close? || e.id != id {
      StepFrame(m, e, id);
    } else if e.Collect? {
      CollectLearnsNothing(m, id, e.message);
    } else if e.TaskDone? {
      DoneLearnsNothing(m, id, e.message);
    } else if !e.CleanupCallback? {
      FailureIsNews(m.tasks[id], e, |m.admitted| < m.slots, m.max);
    }
  }

  lemma CollectLearnsNothing(m: Manager, id: nat, message: string)
    requires id in m.tasks && !KnowsFailure(m.tasks[id])
    ensures !KnowsFailure(Collected(m, id, message).tasks[id])
  {
  }

  lemma DoneLearnsNothing(m: Manager, id: nat, message: string)
    requires id in m.tasks && !KnowsFailure(m.tasks[id]) && id in DoneCallback(m, id, message).tasks
    ensures !KnowsFailure(DoneCallback(m, id, message).tasks[id])
  {
  }

  lemma NewRecord(m: Manager, e: Event, id: nat)
    requires Inv(m) && id !in m.tasks && id in Step(m, e).tasks
    ensures Step(m, e).tasks[id] == NEW_TASK
  {
    if e.Collect? && e.id in m.tasks {
      ClosedCollect(m, e.id, e.message);
    } else if e.TaskDone? && e.id in m.tasks {
      DoneTask(m, e.id, e.message);
    }
  }

  /** Failures do not come from nowhere. */
  lemma {:induction false} FailureWasReported(slots: nat, max: nat, run: seq<Event>, id: nat)
    requires id in After(Fresh(slots, max), run).tasks && KnowsFailure(After(Fresh(slots, max), run).tasks[id])
    ensures CleanupEnds(id, Failed) in run
  {
    var init, e := run[..|run| - 1], run[|run| - 1];
    var m := After(Fresh(slots, max), init);
    EveryRunKeepsInv(slots, max, init);
    if id !in m.tasks {
      NewRecord(m, e, id);
    } else if KnowsFailure(m.tasks[id]) {
      FailureWasReported(slots, max, init, id);
    } else {
      FailureOfAStep(m, e, id);
    }
  }

  /** The event at `k` made the record terminal that is `u` now. A failed cleanup was reported before it. */
  ghost predicate MadeTerminalAt(slots: nat, max: nat, run: seq<Event>, k: nat, id: nat, u: Task) {
    k < |run| && var m := After(Fresh(slots, max), run[..k]);
      && id in m.tasks && Verdict(m.tasks[id], run[k], id, u)
      && (FailsBy(m.tasks[id], run[k]) ==> CleanupEnds(id, Failed) in run[..k])
  }

  predicate SameVerdict(t: Task, u: Task) {
    && u.state == t.state && u.cleanupError == t.cleanupError
    && t.outcome.Some? && u.outcome.Some? && u.outcome.value.kind == t.outcome.value.kind
  }

  lemma StillMadeTerminalAt(slots: nat, max: nat, run: seq<Event>, e: Event, k: nat, id: nat, t: Task, u: Task)
    requires MadeTerminalAt(slots, max, run, k, id, t) && SameVerdict(t, u)
    ensures MadeTerminalAt(slots, max, run + [e], k, id, u)
  {
    assert (run + [e])[..k] == run[..k];
  }

  lemma MadeTerminalNow(slots: nat, max: nat, run: seq<Event>, e: Event, id: nat)
    requires id in Step(After(Fresh(slots, max), run), e).tasks
    requires Finished(Step(After(Fresh(slots, max), run), e).tasks[id])
    requires !(id in After(Fresh(slots, max), run).tasks && Finished(After(Fresh(slots, max), run).tasks[id]))
    ensures MadeTerminalAt(slots, max, run + [e], |run|, id, Step(After(Fresh(slots, max), run), e).tasks[id])
  {
    var m := After(Fresh(slots, max), run);
    EveryRunKeepsInv(slots, max, run);
    if id !in m.tasks {
      NewRecord(m, e, id);
    } else {
      VerdictOfAStep(m, e, id);
      assert (run + [e])[..|run|] == run;
      if FailsBy(m.tasks[id], e) {
        FailureWasReported(slots, max, run, id);
      }
    }
  }

  lemma MadeTerminalBefore(slots: nat, max: nat, run: seq<Event>, e: Event, k: nat, id: nat)
    requires id in After(Fresh(slots, max), run).tasks && id in Step(After(Fresh(slots, max), run), e).tasks
    requires Finished(After(Fresh(slots, max), run).tasks[id])
    requires MadeTerminalAt(slots, max, run, k, id, After(Fresh(slots, max), run).tasks[id])
    ensures MadeTerminalAt(slots, max, run + [e], k, id, Step(After(Fresh(slots, max), run), e).tasks[id])
  {
    var m := After(Fresh(slots, max), run);
    EveryRunKeepsInv(slots, max, run);
    VerdictStays(m, e, id);
    StillMadeTerminalAt(slots, max, run, e, k, id, m.tasks[id], Step(m, e).tasks[id]);
  }

  /** For every run: the terminal state of a record is its sealed outcome, except that it is an error exactly
      if the execution collected a failed cleanup, at the one step `k` that made it terminal. Such a failure was
      reported before. */
  lemma {:induction false} TerminalStateIsTheOutcome(slots: nat, max: nat, run: seq<Event>, id: nat)
    returns (k: nat)
    requires id in After(Fresh(slots, max), run).tasks && Finished(After(Fresh(slots, max), run).tasks[id])
    ensures MadeTerminalAt(slots, max, run, k, id, After(Fresh(slots, max), run).tasks[id])
  {
    if run == [] {
      assert false;
    } else {
      var init, e := run[..|run| - 1], run[|run| - 1];
      assert run == init + [e];
      if id in After(Fresh(slots, max), init).tasks && Finished(After(Fresh(slots, max), init).tasks[id]) {
        k := TerminalStateIsTheOutcome(slots, max, init, id);
        MadeTerminalBefore(slots, max, init, e, k, id);
      } else {
        k := |init|;
        MadeTerminalNow(slots, max, init, e, id);
      }
    }
  }

  /** A terminal record keeps its verdict. */
  lemma VerdictStays(m: Manager, e: Event, id: nat)
    requires Inv(m) && id in m.tasks && Finished(m.tasks[id]) && id in Step(m, e).tasks
    ensures SameVerdict(m.tasks[id], Step(m, e).tasks[id])
  {
    OneTaskOk(m, id);
    StepMovesForward(m, e, id);
    ErrorStays(m, e, id);
  }

  lemma ErrorStays(m: Manager, e: Event, id: nat)
    requires Inv(m) && id in m.tasks && Finished(m.tasks[id]) && id in Step(m, e).tasks
    ensures Step(m, e).tasks[id].cleanupError == m.tasks[id].cleanupError
  {
    OneTaskOk(m, id);
    if e.Create? || e.Close? || e.id != id {
      StepFrame(m, e, id);
    } else if !e.Collect? && !e.TaskDone? && !e.CleanupCallback? {
      ErrorStaysPlain(m.tasks[id], e, |m.admitted| < m.slots, m.max);
    }
  }

  lemma ErrorStaysPlain(t: Task, e: Event, free: bool, max: nat)
    ensures TaskStep(t, e, free, max).cleanupError == t.cleanupError
  {
  }

  // ----- a failed cleanup that nobody hears of

  /** An execution that is cancelled from outside while it waits for its cleanup ends with its sealed outcome,
      although the cleanup fails. */
  lemma FailureIsMissed(m: Manager, id: nat, message: string)
    requires Inv(m) && id in m.tasks && m.tasks[id].exec == AwaitingCleanup(None)
    ensures var n := Step(Step(Step(m, Interrupted(id)), CleanupEnds(id, Failed)), TaskDone(id, message));
            && m.tasks[id].outcome.Some? && id in n.tasks && n.tasks[id].cleanup == Failed
            && n.tasks[id].state == Ended(m.tasks[id].outcome.value.kind) && !n.tasks[id].cleanupError
  {
    OneTaskOk(m, id);
    var a := Step(m, Interrupted(id));
    LeftWaiting(m, id);
    var b := Step(a, CleanupEnds(id, Failed));
    FailedBehindIt(a, id);
    DoneWithOutcome(b, id, message);
  }

  lemma LeftWaiting(m: Manager, id: nat)
    requires id in m.tasks && m.tasks[id].exec.AwaitingCleanup?
    ensures var n := Step(m, Interrupted(id));
            id in n.tasks && n.tasks[id] == m.tasks[id].(exec := Exited(false))
  {
  }

  lemma FailedBehindIt(m: Manager, id: nat)
    requires id in m.tasks && m.tasks[id].exec.Exited? && m.tasks[id].cleanup.Cleaning?
    ensures var n := Step(m, CleanupEnds(id, Failed));
            id in n.tasks && n.tasks[id] == m.tasks[id].(cleanup := Failed)
  {
  }

  lemma DoneWithOutcome(m: Manager, id: nat, message: string)
    requires id in m.tasks && m.tasks[id].exec == Exited(false) && m.tasks[id].cleanup == Failed
    requires !Finished(m.tasks[id]) && m.tasks[id].outcome.Some?
    ensures var n := Step(m, TaskDone(id, message));
            && id in n.tasks && n.tasks[id].cleanup == Failed && !n.tasks[id].cleanupError
            && n.tasks[id].state == Ended(m.tasks[id].outcome.value.kind)
  {
    var n := Departed(m, id, message);
    assert n.tasks[id] == Completed(Abandoned(m.tasks[id], message), None, m.max);
  }

  lemma RunSnoc(m: Manager, run: seq<Event>, e: Event)
    ensures After(m, run + [e]) == Step(After(m, run), e)
  {
    assert (run + [e])[..|run|] == run;
  }

  /** A task that is done and whose cleanup fails. */
  lemma FailedCleanupIsMissed()
    ensures var run := [Create] + [Begin(0)] + [GetSlot(0)] + [ExecEnds(0, Outcome(Done, "ok"))]
                       + [Interrupted(0)] + [CleanupEnds(0, Failed)] + [TaskDone(0, "x")];
            var m := After(Fresh(1, 100), run);
            && 0 in m.tasks && m.tasks[0].state == Ended(Done) && m.tasks[0].cleanup == Failed
            && !m.tasks[0].cleanupError
  {
    var s0 := [Create];
    var s1 := s0 + [Begin(0)];
    var s2 := s1 + [GetSlot(0)];
    var s3 := s2 + [ExecEnds(0, Outcome(Done, "ok"))];
    var s4 := s3 + [Interrupted(0)];
    var s5 := s4 + [CleanupEnds(0, Failed)];
    var m := After(Fresh(1, 100), s3);
    Finishing();
    EveryRunKeepsInv(1, 100, s3);
    FailureIsMissed(m, 0, "x");
    RunSnoc(Fresh(1, 100), s3, Interrupted(0));
    RunSnoc(Fresh(1, 100), s4, CleanupEnds(0, Failed));
    RunSnoc(Fresh(1, 100), s5, TaskDone(0, "x"));
  }

  lemma Finishing()
    ensures var run := [Create] + [Begin(0)] + [GetSlot(0)] + [ExecEnds(0, Outcome(Done, "ok"))];
            var m := After(Fresh(1, 100), run);
            0 in m.tasks && m.tasks[0].exec == AwaitingCleanup(None) && m.tasks[0].outcome == Some(Outcome(Done, "ok"))
  {
    var s2 := [Create] + [Begin(0)] + [GetSlot(0)];
    Working();
    RunSnoc(Fresh(1, 100), s2, ExecEnds(0, Outcome(Done, "ok")));
  }

  lemma Working()
    ensures var m := After(Fresh(1, 100), [Create] + [Begin(0)] + [GetSlot(0)]);
            0 in m.tasks && m.tasks[0] == NEW_TASK.(exec := Executing, state := Running)
  {
    Waiting();
    RunSnoc(Fresh(1, 100), [Create] + [Begin(0)], GetSlot(0));
  }

  lemma Waiting()
    ensures var m := After(Fresh(1, 100), [Create] + [Begin(0)]);
            0 in m.tasks && m.tasks[0] == NEW_TASK.(exec := AwaitingSlot) && |m.admitted| == 0 && m.slots == 1
  {
    var m := Step(Fresh(1, 100), Create);
    assert m.tasks[0] == NEW_TASK && m.admitted == {};
    assert [] + [Create] == [Create] && After(Fresh(1, 100), []) == Fresh(1, 100);
    RunSnoc(Fresh(1, 100), [], Create);
    RunSnoc(Fresh(1, 100), [Create], Begin(0));
    assert Step(m, Begin(0)).admitted == {};
  }

  /** In every run the delivered messages are the first accepted ones in order; a receipt says `Accepted`
      exactly for the messages in the inbox, and no receipt does once the task is terminal. */
  lemma ReceiptsTellTheTruth(slots: nat, max: nat, run: seq<Event>, id: nat, i: nat)
    requires id in After(Fresh(slots, max), run).tasks && i < |After(Fresh(slots, max), run).tasks[id].sent|
    ensures var t := After(Fresh(slots, max), run).tasks[id];
            && |t.delivered| <= |t.sent| <= 128 && t.delivered == Items(t.sent, 0, |t.delivered|)
            && |t.receipts| == |t.sent| && |t.inbox| <= 16
            && (t.receipts[i] == Delivered <==> i < |t.delivered|)
            && (t.receipts[i] == Accepted <==> Item(i, t.sent[i].text) in t.inbox)
            && (t.receipts[i] == Undelivered ==> Finished(t))
            && (Finished(t) ==> t.inbox == [])
  {
    EveryRunKeepsInv(slots, max, run);
    var t := After(Fresh(slots, max), run).tasks[id];
    assert TaskOk(t);
    ReceiptAt(|t.delivered|, |t.sent|, if Finished(t) then Undelivered else Accepted, i);
    InItems(t.sent, |t.delivered|, |t.sent|, i);
  }

  lemma {:induction false} InItems(sent: seq<Note>, a: nat, b: nat, i: nat)
    requires b <= |sent| && i < |sent|
    ensures Item(i, sent[i].text) in Items(sent, a, b) <==> a <= i < b
  {
    if a <= i < b {
      assert Items(sent, a, b)[i - a] == Item(i, sent[i].text);
    }
  }
}
