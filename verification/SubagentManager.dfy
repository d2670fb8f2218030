/** The subagent records and their manager as objects whose methods update fields, each proved to make the
    step of the same name in the model of runs. */
module SubagentManager {
  import opened Transcript
  import opened Text
  import opened Subagents

  class TaskRecord {
    var state: State
    var outcome: Option<Outcome>
    var exec: Exec
    var cleanup: Cleanup
    var output: string
    var partial: bool
    var cleanupError: bool
    var inbox: seq<Item>
    var receipts: seq<Receipt>
    ghost var sent: seq<Note>
    ghost var delivered: seq<Item>

    ghost function View(): Task
      reads this
    {
      Task(state, outcome, exec, cleanup, output, partial, cleanupError, inbox, receipts, sent, delivered)
    }

    constructor ()
      ensures View() == NEW_TASK
    {
      state, outcome, exec, cleanup := Queued, None, NotBegun, NotStarted;
      output, partial, cleanupError, inbox, receipts, sent, delivered := "", false, false, [], [], [], [];
    }

    /** Seal the outcome; false when it was sealed before. */
    method Decide(o: Outcome) returns (first: bool)
      modifies this
      ensures View() == Decided(old(View()), o)
      ensures first == old(outcome.None?)
    {
      if outcome.Some? {
        return false;
      }
      outcome := Some(o);
      state := Stopping;
      return true;
    }

    /** Start the cleanup unless there is one; a retry starts it again whenever the last one is over, however
        it ended. */
    method StartCleanup(retry: bool)
      modifies this
      ensures View() == if retry then old(View()).(cleanup := Cleaning) else CleanupStarted(old(View()))
    {
      if retry && !cleanup.NotStarted? && !cleanup.Cleaning? {
        cleanup := NotStarted;
      }
      if cleanup.NotStarted? {
        cleanup := Cleaning;
      }
    }

    /** What closing the manager does to a record: a cleanup that did not succeed is tried again. */
    method RetryCleanup()
      modifies this
      ensures View() == CleanupRetried(old(View()))
    {
      var retry := cleanup.Failed? || cleanup.Aborted?;
      StartCleanup(retry);
    }

    /** An execution that ended without a terminal result is sealed with what is known of its end. */
    method Abandon(message: string)
      requires exec.Exited?
      modifies this
      ensures View() == Abandoned(old(View()), message)
    {
      var first := Decide(if exec.raised then Outcome(Error, message) else CANCELLED);
      StartCleanup(false);
      exec := Gone;
    }

    /** The receipts of every message in the inbox. */
    method MarkInbox(r: Receipt)
      requires forall k :: 0 <= k < |inbox| ==> inbox[k].id < |receipts|
      modifies this`receipts
      ensures receipts == Marked(old(receipts), inbox, r)
    {
      var rest := inbox;
      while rest != []
        invariant |receipts| == |old(receipts)|
        invariant forall k :: 0 <= k < |rest| ==> rest[k].id < |receipts|
        invariant Marked(receipts, rest, r) == Marked(old(receipts), inbox, r)
        decreases |rest|
      {
        receipts := receipts[rest[0].id := r];
        rest := rest[1..];
      }
    }

    /** Make the record terminal. Without an outcome this is an error and nothing changes. */
    method Finish(cleanupFailure: Option<string>, max: nat) returns (ok: bool)
      requires forall k :: 0 <= k < |inbox| ==> inbox[k].id < |receipts|
      modifies this
      ensures ok == old(outcome.Some?)
      ensures View() == if ok then Completed(old(View()), cleanupFailure, max) else old(View())
    {
      if outcome.None? {
        return false;
      }
      var execution := outcome.value;
      var final := execution;
      if cleanupFailure.Some? {
        final := Outcome(Error, cleanupFailure.value);
      }
      var hasPartial := final.kind != Done && output != "";
      if hasPartial {
        final := final.(text := output);
      }
      MarkInbox(Undelivered);
      state := Ended(final.kind);
      output := Cut(final.text, max);
      partial := hasPartial;
      cleanupError := cleanupFailure.Some?;
      inbox := [];
      outcome := Some(execution.(text := Cut(execution.text, max)));
      return true;
    }

    /** The whole inbox at once, unless the task is stopping. */
    method DrainInbox() returns (rows: Option<seq<Item>>)
      requires forall k :: 0 <= k < |inbox| ==> inbox[k].id < |receipts|
      modifies this
      ensures rows == if old(outcome.Some?) then None else Some(old(inbox))
      ensures View() == if old(outcome.Some?) then old(View()) else Drained(old(View()))
    {
      if outcome.Some? {
        return None;
      }
      MarkInbox(Delivered);
      rows := Some(inbox);
      delivered := delivered + inbox;
      inbox := [];
    }

    method Accept(n: Note) returns (accepted: bool)
      requires |receipts| == |sent|
      modifies this
      ensures accepted == old(Accepts(View(), n))
      ensures View() == if accepted then WithNote(old(View()), n) else old(View())
    {
      if !state.Queued? && !state.Running? {
        return false;
      }
      if IsBlank(n.text) || n.bytes > MAX_MESSAGE_BYTES {
        return false;
      }
      if |inbox| >= MAX_INBOX || |receipts| >= MAX_MESSAGES {
        return false;
      }
      inbox := inbox + [Item(|receipts|, n.text)];
      receipts := receipts + [Accepted];
      sent := sent + [n];
      return true;
    }
  }

  /** The inbox of a record whose accounts are in order names messages with a receipt. */
  lemma InboxHasReceipts(t: Task)
    requires Accounted(t)
    ensures forall k :: 0 <= k < |t.inbox| ==> t.inbox[k].id < |t.receipts|
  {
    forall k | 0 <= k < |t.inbox| ensures t.inbox[k].id < |t.receipts| {
      ItemId(t.sent, |t.delivered|, |t.sent|, k);
    }
  }

  lemma {:induction false} ItemId(sent: seq<Note>, a: nat, b: nat, k: nat)
    requires b <= |sent| && k < |Items(sent, a, b)|
    ensures a < b && Items(sent, a, b)[k].id < b
  {
    if k < |Items(sent, a, b)| - 1 {
      ItemId(sent, a, b - 1, k);
    }
  }

  lemma AbandonKeepsAccounts(t: Task, message: string)
    requires Accounted(t) && !Finished(t) && t.exec.Exited?
    ensures Accounted(Abandoned(t, message))
  {
  }

  /** Finishing overwrites the record, so a change of the record just before does not matter. */
  lemma FinishAfter(m: Manager, id: nat, u: Task)
    requires u.outcome.Some?
    ensures Subagents.FinishTask(WithTask(m, id, u), id, u, None) == Subagents.FinishTask(m, id, u, None)
  {
    var v := Completed(u, None, m.max);
    assert m.tasks[id := u][id := v] == m.tasks[id := v];
  }

  function Recorded(m: Manager, id: nat, kind: Kind): Manager {
    m.(terminal := Remember(m.terminal, id, kind), finishes := m.finishes + [id])
  }

  /** The parts of the manager that finishing a task changes. */
  lemma FinishedAre(m: Manager, id: nat, u: Task, cleanupError: Option<string>)
    requires id in m.tasks && m.tasks[id].outcome.Some? && !m.tasks[id].exec.Executing? && id !in m.admitted
    requires u == Completed(m.tasks[id], cleanupError, m.max)
    ensures Subagents.FinishTask(m, id, m.tasks[id], cleanupError)
         == Recorded(WithTask(m, id, u), id, u.state.kind)
  {
    assert m.admitted - {id} == m.admitted;
  }

  ghost function Views(tasks: map<nat, TaskRecord>): map<nat, Task>
    reads set id | id in tasks :: tasks[id]
  {
    map id | id in tasks :: tasks[id].View()
  }

  lemma OneMoreView(tasks: map<nat, TaskRecord>, id: nat, record: TaskRecord)
    ensures Views(tasks[id := record]) == Views(tasks)[id := record.View()]
  {
  }

  class Controller {
    const slots: nat
    const max: nat
    var tasks: map<nat, TaskRecord>
    var running: set<nat>
    var admitted: set<nat>
    var terminal: seq<Terminal>
    var closed: bool
    var created: nat
    ghost var finishes: seq<nat>

    ghost function Records(): set<object>
      reads this`tasks
    {
      set id | id in tasks :: tasks[id]
    }

    /** Every task has a record of its own. */
    ghost predicate Valid()
      reads this`tasks
    {
      forall i, j :: i in tasks && j in tasks && i != j ==> tasks[i] != tasks[j]
    }

    ghost function Tasks(): map<nat, Task>
      reads this`tasks, Records()
    {
      Views(tasks)
    }

    ghost function View(): Manager
      reads this, Records()
    {
      Manager(slots, max, Tasks(), running, admitted, terminal, closed, created, finishes)
    }

    constructor (slots: nat, max: nat)
      ensures Valid() && View() == Fresh(slots, max)
    {
      this.slots, this.max := slots, max;
      tasks, running, admitted, terminal, closed, created, finishes := map[], {}, {}, [], false, 0, [];
      new;
      assert Tasks() == map[];
    }

    method CreateTask() returns (id: Option<nat>)
      requires Valid() && created !in tasks
      modifies this
      ensures Valid() && View() == Created(old(View()))
      ensures id == if old(closed) || old(|tasks|) >= MAX_ACTIVE then None else Some(old(created))
    {
      assert Tasks().Keys == tasks.Keys;
      if closed || |tasks| >= MAX_ACTIVE {
        return None;
      }
      id := Some(created);
      Register();
    }

    /** A new record and its execution. */
    method Register()
      requires Valid() && created !in tasks
      modifies this
      ensures Valid() && Tasks() == old(Tasks())[old(created) := NEW_TASK] && created == old(created) + 1
      ensures running == old(running) + {old(created)} && unchanged(`admitted, `terminal, `closed, `finishes)
    {
      var record := new TaskRecord();
      AddRecord(record);
    }

    method AddRecord(record: TaskRecord)
      requires Valid() && created !in tasks && record.View() == NEW_TASK
               && (forall id :: id in tasks ==> tasks[id] != record)
      modifies this
      ensures Valid() && Tasks() == old(Tasks())[old(created) := NEW_TASK] && created == old(created) + 1
      ensures running == old(running) + {old(created)} && unchanged(`admitted, `terminal, `closed, `finishes)
    {
      OneMoreView(tasks, created, record);
      tasks := tasks[created := record];
      running := running + {created};
      created := created + 1;
    }

    /** Accept a follow-up message while the execution is open. */
    method Send(id: nat, n: Note) returns (accepted: bool)
      requires Valid() && (id in tasks ==> |tasks[id].receipts| == |tasks[id].sent|)
      modifies Records()
      ensures Valid() && accepted == (id in tasks && Accepts(old(View()).tasks[id], n))
      ensures View()
           == if accepted then WithTask(old(View()), id, WithNote(old(View()).tasks[id], n)) else old(View())
      ensures id in old(tasks) && Booked(old(View()), id) ==> View() == Step(old(View()), Event.Send(id, n))
    {
      SendIsAStep(View(), id, n);
      if id !in tasks {
        return false;
      }
      accepted := tasks[id].Accept(n);
      assert Tasks() == old(Tasks())[id := tasks[id].View()];
      assert old(Tasks()) == old(Tasks())[id := old(tasks[id].View())];
    }

    /** Hand the whole inbox of an executing task to its runner; none of it once the task is stopping. */
    method Drain(id: nat) returns (rows: Option<seq<Item>>)
      requires Valid() && id in tasks && Accounted(tasks[id].View())
      modifies Records()
      ensures Valid() && rows == if old(tasks[id].outcome.Some?) then None else Some(old(tasks[id].inbox))
      ensures View()
           == WithTask(old(View()), id, if rows.None? then old(View()).tasks[id] else Drained(old(View()).tasks[id]))
      ensures Booked(old(View()), id) && old(tasks[id].exec.Executing?) ==> View() == Step(old(View()), Event.Drain(id))
    {
      DrainIsAStep(View(), id);
      InboxHasReceipts(tasks[id].View());
      rows := tasks[id].DrainInbox();
      assert Tasks() == old(Tasks())[id := tasks[id].View()];
    }

    /** Stop a task: seal its outcome and start its cleanup, unless it is terminal. */
    method CancelTask(id: nat)
      requires Valid() && id in tasks
      modifies Records()
      ensures Valid() && View() == WithTask(old(View()), id, Stopped(old(View()).tasks[id]))
      ensures Booked(old(View()), id) ==> View() == Step(old(View()), Event.Cancel(id))
    {
      CancelIsAStep(View(), id);
      var record := tasks[id];
      if !record.state.Ended? {
        var first := record.Decide(CANCELLED);
        record.StartCleanup(false);
      }
      assert Tasks() == old(Tasks())[id := tasks[id].View()];
    }

    /** Try the cleanup of a task again, for every task when the manager closes. */
    method RetryCleanup(id: nat)
      requires Valid() && id in tasks
      modifies Records()
      ensures Valid() && View() == WithTask(old(View()), id, CleanupRetried(old(View()).tasks[id]))
      ensures Booked(old(View()), id) ==> View() == Step(old(View()), Event.RetryCleanup(id))
    {
      RetryIsAStep(View(), id);
      tasks[id].RetryCleanup();
      assert Tasks() == old(Tasks())[id := tasks[id].View()];
    }

    /** Close the admission; the tasks are then stopped one by one and their cleanups tried again. */
    method CloseAdmission()
      requires Valid()
      modifies this
      ensures Valid() && View() == Step(old(View()), Event.Close)
    {
      closed := true;
      assert Tasks() == old(Tasks());
    }

    /** Store a terminal status under its task. */
    method PutTerminal(id: nat, kind: Kind)
      modifies this`terminal
      ensures terminal == WithTerminal(old(terminal), id, kind)
    {
      var before, rest := [], terminal;
      while rest != [] && rest[0].id != id
        invariant WithTerminal(terminal, id, kind) == before + WithTerminal(rest, id, kind)
        invariant terminal == before + rest
        decreases |rest|
      {
        assert before + ([rest[0]] + WithTerminal(rest[1..], id, kind))
            == (before + [rest[0]]) + WithTerminal(rest[1..], id, kind);
        assert before + rest == (before + [rest[0]]) + rest[1..];
        before, rest := before + [rest[0]], rest[1..];
      }
      terminal := before + ([Terminal(id, kind)] + if rest == [] then [] else rest[1..]);
      assert rest == [] ==> [Terminal(id, kind)] + [] == [Terminal(id, kind)];
    }

    /** Store a terminal status and forget the oldest ones beyond the bound. */
    method StoreTerminal(id: nat, kind: Kind)
      modifies this`terminal
      ensures terminal == Remember(old(terminal), id, kind)
    {
      PutTerminal(id, kind);
      ghost var all := terminal;
      assert all[0..] == all;
      while |terminal| > MAX_TERMINAL
        invariant |terminal| <= |all| && terminal == all[|all| - |terminal|..]
        invariant |all| > MAX_TERMINAL ==> |terminal| >= MAX_TERMINAL
        invariant |all| <= MAX_TERMINAL ==> |terminal| == |all|
      {
        terminal := terminal[1..];
      }
    }

    /** Make a task with a sealed outcome terminal and store its status. */
    method FinishTask(id: nat, cleanupFailure: Option<string>)
      requires Valid() && id in tasks && id !in admitted && !tasks[id].exec.Executing?
      requires tasks[id].outcome.Some? && Accounted(tasks[id].View())
      modifies this, tasks[id]
      ensures Valid() && tasks == old(tasks) && running == old(running) && admitted == old(admitted)
      ensures View() == Subagents.FinishTask(old(View()), id, old(View()).tasks[id], cleanupFailure)
    {
      FinishedAre(View(), id, Completed(View().tasks[id], cleanupFailure, max), cleanupFailure);
      CompleteRecord(id, cleanupFailure);
      Record(id, tasks[id].state.kind);
    }

    method Record(id: nat, kind: Kind)
      modifies this`terminal, this`finishes
      ensures View() == Recorded(old(View()), id, kind)
    {
      StoreTerminal(id, kind);
      finishes := finishes + [id];
    }

    method CompleteRecord(id: nat, cleanupFailure: Option<string>)
      requires Valid() && id in tasks && tasks[id].outcome.Some? && Accounted(tasks[id].View())
      modifies tasks[id]
      ensures tasks[id].View() == Completed(old(tasks[id].View()), cleanupFailure, max) && tasks[id].state.Ended?
      ensures View() == WithTask(old(View()), id, tasks[id].View())
    {
      InboxHasReceipts(tasks[id].View());
      var ok := tasks[id].Finish(cleanupFailure, max);
      assert Tasks() == old(Tasks())[id := tasks[id].View()];
    }

    /** The completion callback of an execution: it gives a task that did not finish its terminal result, and
        releases the record if nothing is left to own. */
    method TaskDone(id: nat, message: string)
      requires Valid() && id in tasks && tasks[id].exec.Exited? && id !in admitted
      requires !tasks[id].state.Ended? ==> Accounted(tasks[id].View())
      modifies this, Records()
      ensures Valid() && View() == DoneCallback(old(View()), id, message)
    {
      Depart(id, message);
      ReleaseTask(id);
    }

    method Depart(id: nat, message: string)
      requires Valid() && id in tasks && tasks[id].exec.Exited? && id !in admitted
      requires !tasks[id].state.Ended? ==> Accounted(tasks[id].View())
      modifies this, tasks[id]
      ensures Valid() && admitted == old(admitted) && tasks == old(tasks)
      ensures View() == Departed(old(View()), id, message)
    {
      running := running - {id};
      if tasks[id].state.Ended? {
        tasks[id].exec := Gone;
        assert admitted == admitted - {id};
        assert Tasks() == old(Tasks())[id := tasks[id].View()];
      } else {
        tasks[id].Abandon(message);
        AbandonKeepsAccounts(old(tasks[id].View()), message);
        assert Tasks() == old(Tasks())[id := tasks[id].View()];
        FinishAfter(old(View()).(running := running), id, tasks[id].View());
        FinishTask(id, None);
      }
    }

    /** Drop a record that is terminal, no longer runs and is cleaned up. */
    method ReleaseTask(id: nat)
      requires Valid() && id !in admitted
      modifies this
      ensures Valid() && View() == Release(old(View()), id)
    {
      assert Tasks().Keys == tasks.Keys;
      if id in tasks && tasks[id].state.Ended? && id !in running && tasks[id].cleanup.Cleaned? {
        tasks := tasks - {id};
        assert Tasks() == old(Tasks()) - {id};
        assert admitted == admitted - {id};
      }
    }
  }

  /** The methods make the steps of the model of runs. */
  lemma SendIsAStep(m: Manager, id: nat, n: Note)
    ensures id in m.tasks && Booked(m, id) ==>
              Step(m, Event.Send(id, n))
              == if Accepts(m.tasks[id], n) then WithTask(m, id, WithNote(m.tasks[id], n)) else m
  {
    if id in m.tasks && Booked(m, id) {
      var t := m.tasks[id];
      SendIsATaskStep(t, id, n, |m.admitted| < m.slots, m.max);
      PutIsWithTask(m, id, if Accepts(t, n) then WithNote(t, n) else t);
    }
  }

  lemma SendIsATaskStep(t: Task, id: nat, n: Note, free: bool, max: nat)
    ensures TaskStep(t, Subagents.Event.Send(id, n), free, max) == if Accepts(t, n) then WithNote(t, n) else t
    ensures WithNote(t, n).exec == t.exec
  {
  }

  lemma CancelIsAStep(m: Manager, id: nat)
    requires id in m.tasks
    ensures Booked(m, id) ==> Step(m, Event.Cancel(id)) == WithTask(m, id, Stopped(m.tasks[id]))
  {
    if Booked(m, id) {
      var t := m.tasks[id];
      StopIsATaskStep(t, id, |m.admitted| < m.slots, m.max);
      PutIsWithTask(m, id, Stopped(t));
    }
  }

  lemma RetryIsAStep(m: Manager, id: nat)
    requires id in m.tasks
    ensures Booked(m, id) ==> Step(m, Event.RetryCleanup(id)) == WithTask(m, id, CleanupRetried(m.tasks[id]))
  {
    if Booked(m, id) {
      PutIsWithTask(m, id, CleanupRetried(m.tasks[id]));
    }
  }

  lemma StopIsATaskStep(t: Task, id: nat, free: bool, max: nat)
    ensures TaskStep(t, Event.Cancel(id), free, max) == Stopped(t) && Stopped(t).exec == t.exec
  {
  }

  lemma DrainIsAStep(m: Manager, id: nat)
    requires id in m.tasks
    ensures Booked(m, id) && m.tasks[id].exec.Executing? ==>
              Step(m, Event.Drain(id))
              == WithTask(m, id, if m.tasks[id].outcome.Some? then m.tasks[id] else Drained(m.tasks[id]))
  {
    if Booked(m, id) && m.tasks[id].exec.Executing? {
      var t := m.tasks[id];
      PutIsWithTask(m, id, if t.outcome.Some? then t else Drained(t));
    }
  }

  lemma PutIsWithTask(m: Manager, id: nat, t: Task)
    requires id in m.tasks && Booked(m, id) && t.exec == m.tasks[id].exec
    ensures Put(m, id, t) == WithTask(m, id, t)
    ensures WithTask(m, id, m.tasks[id]) == m
  {
    assert m.tasks[id := m.tasks[id]] == m.tasks;
    assert id in m.admitted ==> m.admitted + {id} == m.admitted;
    assert id !in m.admitted ==> m.admitted - {id} == m.admitted;
  }
}
