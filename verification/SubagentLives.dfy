/** What the steps of the subagent manager do for a task: messages that are accepted and handed over, lives from
    creation to release, and exactly when a record goes. */
module SubagentLives {
  import opened Transcript
  import opened Text
  import opened Subagents
  import opened SubagentRuns

  // ----- messages

  /** In every reachable state: a message is accepted exactly while the task is queued or running, with visible text of
      at most 8192 bytes, fewer than 16 waiting messages and fewer than 128 in all; and an accepted one comes last,
      under the next id, with its receipt. Nothing else changes. */
  lemma SendIsExact(m: Manager, id: nat, n: Note)
    requires Inv(m) && id in m.tasks
    ensures var (t, u) := (m.tasks[id], Step(m, Send(id, n)).tasks[id]);
            u == if !IsOpen(t, n) then t
                 else t.(sent := t.sent + [n], inbox := t.inbox + [Item(|t.sent|, n.text)],
                         receipts := t.receipts + [Accepted])
  {
    OneReceiptEach(m, id);
    SendIsPlain(m, id, n);
  }

  lemma SendIsPlain(m: Manager, id: nat, n: Note)
    requires id in m.tasks && |m.tasks[id].receipts| == |m.tasks[id].sent|
    ensures id in Step(m, Send(id, n)).tasks
    ensures var (t, u) := (m.tasks[id], Step(m, Send(id, n)).tasks[id]);
            u == if !IsOpen(t, n) then t
                 else t.(sent := t.sent + [n], inbox := t.inbox + [Item(|t.sent|, n.text)],
                         receipts := t.receipts + [Accepted])
  {
    PlainStep(m, id, Send(id, n));
    OpenIsAccepting(m.tasks[id], n);
  }

  ghost predicate IsOpen(t: Task, n: Note) {
    && (t.state == Queued || t.state == Running) && (exists i :: 0 <= i < |n.text| && !IsSpace(n.text[i]))
    && n.bytes <= 8192 && |t.inbox| < 16 && |t.sent| < 128
  }

  lemma OneReceiptEach(m: Manager, id: nat)
    requires Inv(m) && id in m.tasks
    ensures |m.tasks[id].receipts| == |m.tasks[id].sent|
  {
    OneTaskOk(m, id);
  }

  lemma OpenIsAccepting(t: Task, n: Note)
    requires |t.receipts| == |t.sent|
    ensures Subagents.Accepts(t, n) <==> IsOpen(t, n)
  {
  }

  /** A drain hands over the whole inbox of an executing task that is not stopping: nothing waits any more, and every
      message so far has been delivered in order. */
  lemma DrainIsExact(m: Manager, id: nat, i: nat)
    requires Inv(m) && id in m.tasks && m.tasks[id].exec == Executing && i < |m.tasks[id].sent|
    ensures id in Step(m, Drain(id)).tasks && DrainedTo(m.tasks[id], Step(m, Drain(id)).tasks[id], i)
  {
    AccountsInOrder(m, id);
    DrainIsPlain(m, id, i);
  }

  lemma AccountsInOrder(m: Manager, id: nat)
    requires Inv(m) && id in m.tasks && m.tasks[id].exec == Executing
    ensures Accounted(m.tasks[id]) && !Finished(m.tasks[id])
  {
    OneTaskOk(m, id);
  }

  lemma DrainIsPlain(m: Manager, id: nat, i: nat)
    requires id in m.tasks && m.tasks[id].exec == Executing && i < |m.tasks[id].sent|
    requires Accounted(m.tasks[id]) && !Finished(m.tasks[id])
    ensures id in Step(m, Drain(id)).tasks && DrainedTo(m.tasks[id], Step(m, Drain(id)).tasks[id], i)
  {
    PlainStep(m, id, Drain(id));
    if m.tasks[id].outcome.None? {
      DrainedIs(m.tasks[id], i);
    }
  }

  ghost predicate DrainedTo(t: Task, u: Task, i: nat) {
    if t.outcome.Some? then u == t
    else
      && u == t.(inbox := [], delivered := t.delivered + t.inbox, receipts := u.receipts)
      && u.delivered == Items(t.sent, 0, |t.sent|)
      && |u.receipts| == |t.sent| && (i < |t.sent| ==> u.receipts[i] == Delivered)
  }

  lemma DrainedIs(t: Task, i: nat)
    requires Accounted(t) && !Finished(t) && t.outcome.None? && i < |t.sent|
    ensures DrainedTo(t, Drained(t), i)
  {
    DrainKeepsAccounts(t);
    ItemsJoin(t.sent, 0, |t.delivered|, |t.sent|);
    ItemsLength(t.sent, |t.sent|);
    ReceiptAt(|t.sent|, |t.sent|, Accepted, i);
  }

  lemma {:induction false} ItemsLength(sent: seq<Note>, n: nat)
    requires n <= |sent|
    ensures |Items(sent, 0, n)| == n
  {
    if n > 0 {
      ItemsLength(sent, n - 1);
    }
  }

  // ----- when a record goes

  /** In every reachable state: a record goes exactly behind the callback of a cleanup that succeeded, if its execution
      is gone and it is terminal, or in the completion callback of an execution that is over, if its cleanup has
      succeeded. */
  lemma ReleasedIff(m: Manager, e: Event, id: nat)
    requires Inv(m) && id in m.tasks
    ensures id !in Step(m, e).tasks <==>
              && m.tasks[id].cleanup == Cleaned
              && ((e == CleanupCallback(id) && m.tasks[id].exec == Gone)
                  || (e.TaskDone? && e.id == id && m.tasks[id].exec.Exited?))
  {
    if id !in Step(m, e).tasks {
      ReleasedOnlyWhenSafe(m, e, id);
    } else if e == CleanupCallback(id) {
      CallbackReleases(m, id);
    } else if e.TaskDone? && e.id == id && m.tasks[id].exec.Exited? && m.tasks[id].cleanup == Cleaned {
      DoneReleases(m, id, e.message);
    }
  }

  lemma CallbackReleases(m: Manager, id: nat)
    requires Inv(m) && id in m.tasks
    ensures id !in Release(m, id).tasks <==> m.tasks[id].cleanup == Cleaned && m.tasks[id].exec == Gone
  {
    OneTaskOk(m, id);
    assert Booked(m, id);
  }

  lemma DoneReleases(m: Manager, id: nat, message: string)
    requires Inv(m) && id in m.tasks && m.tasks[id].exec.Exited? && m.tasks[id].cleanup == Cleaned
    ensures id !in DoneCallback(m, id, message).tasks
  {
    OneTaskOk(m, id);
    DepartedTask(m, id, message);
    var n := Departed(m, id, message);
    assert n.tasks[id].cleanup == Cleaned by {
      if !Finished(m.tasks[id]) {
        assert n.tasks[id] == Completed(Abandoned(m.tasks[id], message), None, m.max);
      }
    }
    assert Finished(n.tasks[id]) && id !in n.running;
  }

  // ----- a life from its beginning to its end

  /** The step changes this record to `u`, and nothing else but the admitted executions. */
  ghost predicate Becomes(m: Manager, n: Manager, id: nat, u: Task) {
    id in m.tasks && n == m.(tasks := m.tasks[id := u], admitted := n.admitted)
  }

  lemma BecomesOnward(m: Manager, a: Manager, n: Manager, id: nat, t: Task, u: Task)
    requires Becomes(m, a, id, t) && Becomes(a, n, id, u)
    ensures Becomes(m, n, id, u) && a.tasks[id] == t && n.tasks[id] == u && id in n.tasks
  {
    assert m.tasks[id := t][id := u] == m.tasks[id := u];
  }

  lemma PlainStep(m: Manager, id: nat, e: Event)
    requires id in m.tasks && !e.Create? && !e.Close? && e.id == id
    requires !e.CleanupCallback? && !e.Collect? && !e.TaskDone?
    ensures var u := TaskStep(m.tasks[id], e, |m.admitted| < m.slots, m.max);
            && Becomes(m, Step(m, e), id, u)
            && Step(m, e).admitted == if u.exec.Executing? then m.admitted + {id} else m.admitted - {id}
  {
  }

  lemma NotAdmitted(m: Manager, id: nat)
    requires Inv(m) && id in m.tasks && !m.tasks[id].exec.Executing?
    ensures m.admitted - {id} == m.admitted
  {
    assert Booked(m, id);
  }

  predicate IsPlain(e: Event, id: nat) {
    && !e.Create? && !e.Close? && e.id == id
    && !e.CleanupCallback? && !e.Collect? && !e.TaskDone?
  }

  /** Two steps of one task, by what each makes of its record. */
  lemma TwoPlainSteps(m: Manager, id: nat, e: Event, f: Event, t: Task, u: Task)
    requires id in m.tasks && IsPlain(e, id) && IsPlain(f, id)
    requires t == TaskStep(m.tasks[id], e, |m.admitted| < m.slots, m.max)
    requires u == TaskStep(t, f, |Step(m, e).admitted| < m.slots, m.max)
    ensures Becomes(m, Step(Step(m, e), f), id, u)
  {
    PlainStep(m, id, e);
    PlainStep(Step(m, e), id, f);
    BecomesOnward(m, Step(m, e), Step(Step(m, e), f), id, t, u);
  }

  lemma WaitsForASlot(m: Manager, id: nat)
    requires Inv(m) && id in m.tasks && m.tasks[id].exec == NotBegun && m.tasks[id].outcome == None
    ensures Step(m, Begin(id)).admitted == m.admitted
  {
    NotAdmitted(m, id);
    PlainStep(m, id, Begin(id));
  }

  /** A task that has not begun runs as soon as there is a slot. */
  lemma TaskBegins(m: Manager, id: nat)
    requires Inv(m) && id in m.tasks && m.tasks[id].exec == NotBegun && m.tasks[id].outcome == None
    requires |m.admitted| < m.slots
    ensures Becomes(m, Step(Step(m, Begin(id)), GetSlot(id)), id, m.tasks[id].(exec := Executing, state := Running))
  {
    WaitsForASlot(m, id);
    SlotIsTaken(m, id);
  }

  lemma SlotIsTaken(m: Manager, id: nat)
    requires id in m.tasks && m.tasks[id].exec == NotBegun && m.tasks[id].outcome == None
    requires |m.admitted| < m.slots && Step(m, Begin(id)).admitted == m.admitted
    ensures Becomes(m, Step(Step(m, Begin(id)), GetSlot(id)), id, m.tasks[id].(exec := Executing, state := Running))
  {
    var t := m.tasks[id];
    TwoPlainSteps(m, id, Begin(id), GetSlot(id), t.(exec := AwaitingSlot), t.(exec := Executing, state := Running));
  }

  /** Its outcome is sealed when the execution ends, and its cleanup runs. */
  lemma ExecutionEnds(m: Manager, id: nat, o: Outcome, how: Cleanup)
    requires id in m.tasks && m.tasks[id].exec == Executing && m.tasks[id].cleanup == NotStarted
    requires m.tasks[id].outcome == None && (how == Cleaned || how == Failed)
    ensures Becomes(m, Step(Step(m, ExecEnds(id, o)), CleanupEnds(id, how)), id,
                    m.tasks[id].(exec := AwaitingCleanup(Some(how)), cleanup := how, state := Stopping,
                                 outcome := Some(o)))
  {
    var t := m.tasks[id];
    TwoPlainSteps(m, id, ExecEnds(id, o), CleanupEnds(id, how),
                  t.(exec := AwaitingCleanup(None), cleanup := Cleaning, state := Stopping, outcome := Some(o)),
                  t.(exec := AwaitingCleanup(Some(how)), cleanup := how, state := Stopping, outcome := Some(o)));
  }

  /** A text cut to the limit. */
  predicate CutTo(text: string, cut: string, max: nat) {
    cut <= text && |cut| == if |text| <= max then |text| else max
  }

  /** What the terminal record says: the kind and text of the outcome, or of the failed cleanup; output that came before
      an outcome other than success is kept in its place. */
  ghost predicate Tells(t: Task, u: Task, kind: Kind, text: string, max: nat) {
    && u.state == Ended(kind) && u.inbox == [] && u.exec == Announcing
    && u.partial == (kind != Done && t.output != "")
    && CutTo(if kind != Done && t.output != "" then t.output else text, u.output, max)
  }

  /** The step makes the task terminal and stores its status. */
  ghost predicate FinishesAs(m: Manager, n: Manager, id: nat, kind: Kind, text: string) {
    && id in m.tasks && id in n.tasks && n.finishes == m.finishes + [id]
    && Tells(m.tasks[id], n.tasks[id], kind, text, m.max) && n.tasks[id].cleanup == m.tasks[id].cleanup
    && n.terminal != [] && n.terminal[|n.terminal| - 1] == Terminal(id, kind)
  }

  lemma CompletedTells(t: Task, cleanupError: Option<string>, max: nat)
    requires t.outcome.Some?
    ensures Tells(t, Completed(t.(exec := Announcing), cleanupError, max),
                  if cleanupError.Some? then Error else t.outcome.value.kind,
                  if cleanupError.Some? then cleanupError.value else t.outcome.value.text, max)
    ensures Completed(t.(exec := Announcing), cleanupError, max).cleanup == t.cleanup
  {
  }

  /** Collecting the end of the cleanup makes the task terminal and stores its status. */
  lemma TaskFinishes(m: Manager, id: nat, message: string)
    requires Inv(m) && id in m.tasks
    requires m.tasks[id].exec == AwaitingCleanup(Some(Cleaned)) || m.tasks[id].exec == AwaitingCleanup(Some(Failed))
    ensures m.tasks[id].outcome.Some?
    ensures var t := m.tasks[id];
            var failed := t.exec == AwaitingCleanup(Some(Failed));
            FinishesAs(m, Step(m, Collect(id, message)), id, if failed then Error else t.outcome.value.kind,
                       if failed then message else t.outcome.value.text)
  {
    var t := m.tasks[id];
    var cleanupError := if t.exec.heard.value.Failed? then Some(message) else None;
    WaitsForItsEnd(m, id);
    CompletedTells(t, cleanupError, m.max);
    CollectedIs(m, id, message, cleanupError);
    StoredComesLast(m.terminal, id, Completed(t.(exec := Announcing), cleanupError, m.max).state.kind);
  }

  lemma WaitsForItsEnd(m: Manager, id: nat)
    requires Inv(m) && id in m.tasks && m.tasks[id].exec.AwaitingCleanup?
    ensures m.tasks[id].outcome.Some? && id !in TerminalIds(m.terminal)
  {
    OneTaskOk(m, id);
    assert Booked(m, id);
    forall i | 0 <= i < |m.terminal| ensures TerminalIds(m.terminal)[i] != id {
      assert TerminalIds(m.terminal)[i] == Last(m.finishes, |m.terminal|)[i];
    }
  }

  lemma CollectedIs(m: Manager, id: nat, message: string, cleanupError: Option<string>)
    requires id in m.tasks && m.tasks[id].outcome.Some? && m.tasks[id].exec.AwaitingCleanup?
    requires m.tasks[id].exec.heard == Some(Cleaned) || m.tasks[id].exec.heard == Some(Failed)
    requires cleanupError == if m.tasks[id].exec.heard == Some(Failed) then Some(message) else None
    ensures var (n, u) := (Step(m, Collect(id, message)),
                           Completed(m.tasks[id].(exec := Announcing), cleanupError, m.max));
            && n.tasks == m.tasks[id := u] && n.finishes == m.finishes + [id]
            && n.terminal == Remember(m.terminal, id, u.state.kind)
  {
  }

  lemma {:induction false} StoredComesLast(terminal: seq<Terminal>, id: nat, kind: Kind)
    requires id !in TerminalIds(terminal)
    ensures var r := Remember(terminal, id, kind);
            r != [] && r[|r| - 1] == Terminal(id, kind)
  {
    StoredBehind(terminal, id, kind);
  }

  /** Behind it the execution leaves and the record goes, if the cleanup has succeeded. */
  lemma TaskLeaves(m: Manager, id: nat, raised: bool, message: string)
    requires id in m.tasks && m.tasks[id].exec == Announcing && m.tasks[id].state.Ended?
    ensures var n := Step(Step(m, Leaves(id, raised)), TaskDone(id, message));
            && id !in n.running && n.finishes == m.finishes && n.terminal == m.terminal
            && (id in n.tasks <==> m.tasks[id].cleanup != Cleaned)
            && (id in n.tasks ==> n.tasks[id] == m.tasks[id].(exec := Gone))
  {
    var a := Step(m, Leaves(id, raised));
    PlainStep(m, id, Leaves(id, raised));
    DepartsAndGoes(a, id, message);
  }

  lemma DepartsAndGoes(m: Manager, id: nat, message: string)
    requires id in m.tasks && m.tasks[id].exec.Exited? && m.tasks[id].state.Ended?
    ensures var n := Step(m, TaskDone(id, message));
            && id !in n.running && n.finishes == m.finishes && n.terminal == m.terminal
            && (id in n.tasks <==> m.tasks[id].cleanup != Cleaned)
            && (id in n.tasks ==> n.tasks[id] == m.tasks[id].(exec := Gone))
  {
    var d := Departed(m, id, message);
    assert d.tasks[id] == m.tasks[id].(exec := Gone) && id !in d.running;
  }

  /** For every reachable state with a free slot: a task that has not begun, whatever outcome its execution has,
      ends with that outcome, its status stored, and its record released. */
  lemma TaskLives(m: Manager, id: nat, o: Outcome, message: string)
    requires Inv(m) && id in m.tasks && m.tasks[id].exec == NotBegun && m.tasks[id].outcome == None
    requires m.tasks[id].cleanup == NotStarted && |m.admitted| < m.slots
    ensures var a := Step(Step(m, Begin(id)), GetSlot(id));
            var b := Step(Step(a, ExecEnds(id, o)), CleanupEnds(id, Cleaned));
            var c := Step(b, Collect(id, message));
            var d := Step(Step(c, Leaves(id, false)), TaskDone(id, message));
            && id in c.tasks && Tells(m.tasks[id], c.tasks[id], o.kind, o.text, m.max)
            && d.terminal != [] && d.terminal[|d.terminal| - 1] == Terminal(id, o.kind)
            && id !in d.tasks && id !in d.running && d.finishes == m.finishes + [id]
  {
    TaskEnds(m, id, o);
    TaskEndsInv(m, id, o);
    LifeIsOver(m, Step(Step(Step(Step(m, Begin(id)), GetSlot(id)), ExecEnds(id, o)), CleanupEnds(id, Cleaned)), id, o,
               message);
  }

  function EndedTask(t: Task, o: Outcome): Task {
    t.(exec := AwaitingCleanup(Some(Cleaned)), cleanup := Cleaned, state := Stopping, outcome := Some(o))
  }

  lemma TaskEnds(m: Manager, id: nat, o: Outcome)
    requires Inv(m) && id in m.tasks && m.tasks[id].exec == NotBegun && m.tasks[id].outcome == None
    requires m.tasks[id].cleanup == NotStarted && |m.admitted| < m.slots
    ensures Becomes(m, Step(Step(Step(Step(m, Begin(id)), GetSlot(id)), ExecEnds(id, o)), CleanupEnds(id, Cleaned)), id,
                    EndedTask(m.tasks[id], o))
  {
    TaskBegins(m, id);
    ThenEnds(m, Step(Step(m, Begin(id)), GetSlot(id)), id, o);
  }

  lemma ThenEnds(m: Manager, a: Manager, id: nat, o: Outcome)
    requires id in m.tasks && m.tasks[id].outcome == None && m.tasks[id].cleanup == NotStarted
    requires Becomes(m, a, id, m.tasks[id].(exec := Executing, state := Running))
    ensures Becomes(m, Step(Step(a, ExecEnds(id, o)), CleanupEnds(id, Cleaned)), id, EndedTask(m.tasks[id], o))
  {
    var t := m.tasks[id];
    ExecutionEnds(a, id, o, Cleaned);
    BecomesOnward(m, a, Step(Step(a, ExecEnds(id, o)), CleanupEnds(id, Cleaned)), id,
                  t.(exec := Executing, state := Running), EndedTask(t, o));
  }

  lemma TaskEndsInv(m: Manager, id: nat, o: Outcome)
    requires Inv(m)
    ensures Inv(Step(Step(Step(Step(m, Begin(id)), GetSlot(id)), ExecEnds(id, o)), CleanupEnds(id, Cleaned)))
  {
    TwoStepsKeepInv(m, Begin(id), GetSlot(id));
    TwoStepsKeepInv(Step(Step(m, Begin(id)), GetSlot(id)), ExecEnds(id, o), CleanupEnds(id, Cleaned));
  }

  lemma LifeIsOver(m: Manager, b: Manager, id: nat, o: Outcome, message: string)
    requires Inv(b) && id in m.tasks && Becomes(m, b, id, EndedTask(m.tasks[id], o))
    ensures var c := Step(b, Collect(id, message));
            var d := Step(Step(c, Leaves(id, false)), TaskDone(id, message));
            && id in c.tasks && Tells(m.tasks[id], c.tasks[id], o.kind, o.text, m.max)
            && d.terminal != [] && d.terminal[|d.terminal| - 1] == Terminal(id, o.kind)
            && id !in d.tasks && id !in d.running && d.finishes == m.finishes + [id]
  {
    FinishesWell(m, b, id, o, message);
    LeavesWell(m, Step(b, Collect(id, message)), id, o, message);
  }

  ghost predicate WellFinished(m: Manager, c: Manager, id: nat, o: Outcome) {
    && id in m.tasks && id in c.tasks && Tells(m.tasks[id], c.tasks[id], o.kind, o.text, m.max)
    && c.tasks[id].cleanup == Cleaned && c.finishes == m.finishes + [id]
    && c.terminal != [] && c.terminal[|c.terminal| - 1] == Terminal(id, o.kind)
  }

  lemma FinishesWell(m: Manager, b: Manager, id: nat, o: Outcome, message: string)
    requires Inv(b) && id in m.tasks && Becomes(m, b, id, EndedTask(m.tasks[id], o))
    ensures WellFinished(m, Step(b, Collect(id, message)), id, o)
  {
    TaskFinishes(b, id, message);
  }

  lemma LeavesWell(m: Manager, c: Manager, id: nat, o: Outcome, message: string)
    requires WellFinished(m, c, id, o)
    ensures var d := Step(Step(c, Leaves(id, false)), TaskDone(id, message));
            && d.terminal != [] && d.terminal[|d.terminal| - 1] == Terminal(id, o.kind)
            && id !in d.tasks && id !in d.running && d.finishes == m.finishes + [id]
  {
    TaskLeaves(c, id, false, message);
  }

  lemma TwoStepsKeepInv(m: Manager, e: Event, f: Event)
    requires Inv(m)
    ensures Inv(Step(Step(m, e), f))
  {
    StepKeepsInv(m, e);
    StepKeepsInv(Step(m, e), f);
  }

  /** Output while the task executes is what a later outcome other than success keeps. */
  lemma OutputIsKept(m: Manager, id: nat, text: string)
    requires id in m.tasks && m.tasks[id].exec == Executing
    ensures var (t, n) := (m.tasks[id], Step(m, Output(id, text)));
            id in n.tasks && if IsBlank(text) then n.tasks[id] == t
                             else n.tasks[id] == t.(output := n.tasks[id].output, partial := true)
                                  && CutTo(text, n.tasks[id].output, m.max)
  {
  }

  /** A task that is told to stop: its outcome is sealed as cancelled unless it was sealed before, and its cleanup has
      been started; a terminal one stays as it is. */
  lemma CancelIsExact(m: Manager, id: nat)
    requires id in m.tasks
    ensures var (t, u) := (m.tasks[id], Step(m, Cancel(id)).tasks[id]);
            if t.state.Ended? then u == t
            else u == t.(outcome := if t.outcome.Some? then t.outcome else Some(Outcome(Cancelled, "Task cancelled.")),
                         state := if t.outcome.Some? then t.state else Stopping,
                         cleanup := if t.cleanup == NotStarted then Cleaning else t.cleanup)
  {
  }

  /** A task that is cancelled before or during its execution ends as cancelled. */
  lemma CancelledTaskEnds(m: Manager, id: nat, message: string)
    requires Inv(m) && id in m.tasks && m.tasks[id].outcome == None && m.tasks[id].cleanup == NotStarted
    requires m.tasks[id].exec == AwaitingSlot || m.tasks[id].exec == Executing
    ensures var a := Step(Step(Step(m, Cancel(id)), Interrupted(id)), CleanupEnds(id, Cleaned));
            var c := Step(a, Collect(id, message));
            && id in c.tasks && Tells(m.tasks[id], c.tasks[id], Cancelled, "Task cancelled.", m.max)
            && c.finishes == m.finishes + [id] && c.terminal != []
            && c.terminal[|c.terminal| - 1] == Terminal(id, Cancelled)
  {
    OneTaskOk(m, id);
    CancelledWaits(m, id);
    ThreeStepsKeepInv(m, Cancel(id), Interrupted(id), CleanupEnds(id, Cleaned));
    EndsCancelled(m, Step(Step(Step(m, Cancel(id)), Interrupted(id)), CleanupEnds(id, Cleaned)), id, message);
  }

  lemma EndsCancelled(m: Manager, a: Manager, id: nat, message: string)
    requires Inv(a) && id in m.tasks && Becomes(m, a, id, EndedTask(m.tasks[id], CANCELLED))
    ensures var c := Step(a, Collect(id, message));
            && id in c.tasks && Tells(m.tasks[id], c.tasks[id], Cancelled, "Task cancelled.", m.max)
            && c.finishes == m.finishes + [id] && c.terminal != []
            && c.terminal[|c.terminal| - 1] == Terminal(id, Cancelled)
  {
    TaskFinishes(a, id, message);
  }

  lemma ThreeStepsKeepInv(m: Manager, e: Event, f: Event, g: Event)
    requires Inv(m)
    ensures Inv(Step(Step(Step(m, e), f), g))
  {
    TwoStepsKeepInv(m, e, f);
    StepKeepsInv(Step(Step(m, e), f), g);
  }

  lemma CancelledIsSealed(m: Manager, id: nat)
    requires id in m.tasks && m.tasks[id].outcome == None && m.tasks[id].cleanup == NotStarted
    requires m.tasks[id].state.Queued? || m.tasks[id].state.Running?
    requires m.tasks[id].exec == AwaitingSlot || m.tasks[id].exec == Executing
    ensures Becomes(m, Step(Step(m, Cancel(id)), Interrupted(id)), id,
                    m.tasks[id].(exec := AwaitingCleanup(None), cleanup := Cleaning, state := Stopping,
                                 outcome := Some(CANCELLED)))
  {
    var sealed := m.tasks[id].(cleanup := Cleaning, state := Stopping, outcome := Some(CANCELLED));
    TwoPlainSteps(m, id, Cancel(id), Interrupted(id), sealed, sealed.(exec := AwaitingCleanup(None)));
  }

  lemma CancelledWaits(m: Manager, id: nat)
    requires id in m.tasks && m.tasks[id].outcome == None && m.tasks[id].cleanup == NotStarted
    requires m.tasks[id].state.Queued? || m.tasks[id].state.Running?
    requires m.tasks[id].exec == AwaitingSlot || m.tasks[id].exec == Executing
    ensures Becomes(m, Step(Step(Step(m, Cancel(id)), Interrupted(id)), CleanupEnds(id, Cleaned)), id,
                    EndedTask(m.tasks[id], CANCELLED))
  {
    CancelledIsSealed(m, id);
    CleanedBehind(m, Step(Step(m, Cancel(id)), Interrupted(id)), id);
  }

  lemma CleanedBehind(m: Manager, b: Manager, id: nat)
    requires id in m.tasks
    requires Becomes(m, b, id, m.tasks[id].(exec := AwaitingCleanup(None), cleanup := Cleaning, state := Stopping,
                                            outcome := Some(CANCELLED)))
    ensures Becomes(m, Step(b, CleanupEnds(id, Cleaned)), id, EndedTask(m.tasks[id], CANCELLED))
  {
    var waiting := m.tasks[id].(exec := AwaitingCleanup(None), cleanup := Cleaning, state := Stopping,
                                outcome := Some(CANCELLED));
    PlainStep(b, id, CleanupEnds(id, Cleaned));
    BecomesOnward(m, b, Step(b, CleanupEnds(id, Cleaned)), id, waiting, EndedTask(m.tasks[id], CANCELLED));
  }

  // ----- the other steps

  /** In every reachable state: a task is created exactly if the manager is open and owns fewer than 128 records; it
      waits under a new id with a running execution, and nothing else changes. */
  lemma CreateIsExact(m: Manager)
    requires Inv(m)
    ensures var n := Step(m, Create);
            if m.closed || |m.tasks| >= 128 then n == m
            else
              && m.created !in m.tasks && n.tasks == m.tasks[m.created := n.tasks[m.created]]
              && n.tasks[m.created]
                 == Task(Queued, None, NotBegun, NotStarted, "", false, false, [], [], [], [])
              && n == m.(tasks := n.tasks, running := m.running + {m.created}, created := m.created + 1)
  {
    if m.created in m.tasks {
      IdIsOld(m, m.created);
    }
  }

  /** Closing keeps everything but the admission of new tasks. */
  lemma CloseIsExact(m: Manager)
    ensures Step(m, Close) == m.(closed := true)
  {
  }

  /** A retry starts a cleanup that is missing, that failed or that was cancelled, and no other one. */
  lemma RetryIsExact(m: Manager, id: nat)
    requires id in m.tasks
    ensures var (t, n) := (m.tasks[id], Step(m, RetryCleanup(id)));
            id in n.tasks && n.tasks[id]
              == t.(cleanup := if t.cleanup == Cleaning || t.cleanup == Cleaned then t.cleanup else Cleaning)
  {
  }

  /** An execution that is over without a terminal result gets one: its sealed outcome, or else an error if it raised
      one, or that it was cancelled. */
  lemma LateResult(m: Manager, id: nat, message: string)
    requires id in m.tasks && m.tasks[id].exec.Exited? && !m.tasks[id].state.Ended?
    ensures var (t, n) := (m.tasks[id], Departed(m, id, message));
            var o := if t.outcome.Some? then t.outcome.value
                     else if t.exec.raised then Outcome(Error, message) else Outcome(Cancelled, "Task cancelled.");
            && id in n.tasks && n.tasks[id].state == Ended(o.kind) && n.tasks[id].exec == Gone && id !in n.running
            && CutTo(if o.kind != Done && t.output != "" then t.output else o.text, n.tasks[id].output, m.max)
            && n.finishes == m.finishes + [id]
            && n.tasks[id].cleanup == (if t.cleanup == NotStarted then Cleaning else t.cleanup)
            && Step(m, TaskDone(id, message)) == Release(n, id)
  {
    var u := Abandoned(m.tasks[id], message);
    assert Departed(m, id, message).tasks[id] == Completed(u, None, m.max);
  }
}
