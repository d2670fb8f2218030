/** Background subagent tasks: one sealed outcome per execution, an inbox with receipts, bounded registries,
    and a record that is owned until its execution has ended and its processes are cleaned up. A step is what
    happens between two awaits; any order of steps is a run. */
module Subagents {
  import opened Transcript
  import opened Text

  const MAX_ACTIVE: nat := 128
  const MAX_TERMINAL: nat := 128
  const MAX_INBOX: nat := 16
  const MAX_MESSAGES: nat := 128
  const MAX_MESSAGE_BYTES: nat := 8192

  datatype Kind = Done | Incomplete | Error | Cancelled

  datatype Outcome = Outcome(kind: Kind, text: string)

  datatype State = Queued | Running | Stopping | Ended(kind: Kind)

  datatype Receipt = Accepted | Delivered | Undelivered

  /** A follow-up message; `bytes` is the length of its UTF-8 form. In the inbox it stands under its id. */
  datatype Note = Note(text: string, bytes: nat)

  datatype Item = Item(id: nat, text: string)

  /** The state of the task that closes the processes of a subagent. */
  datatype Cleanup = NotStarted | Cleaning | Cleaned | Failed | Aborted

  /** Where the execution stands. While it waits for the cleanup it has heard of its end or not;
      `Exited` is an execution that is over before its completion callback has run, `Gone` one after it. */
  datatype Exec =
    | NotBegun
    | AwaitingSlot
    | Executing
    | AwaitingCleanup(heard: Option<Cleanup>)
    | Announcing
    | Exited(raised: bool)
    | Gone

  /** The record of a task. Message ids are the positions in `sent`, and receipts are kept by id; `sent` and
      `delivered` are histories. */
  datatype Task = Task(state: State, outcome: Option<Outcome>, exec: Exec, cleanup: Cleanup,
                       output: string, partial: bool, cleanupError: bool,
                       inbox: seq<Item>, receipts: seq<Receipt>, sent: seq<Note>, delivered: seq<Item>)

  const NEW_TASK: Task := Task(Queued, None, NotBegun, NotStarted, "", false, false, [], [], [], [])
  const CANCELLED: Outcome := Outcome(Cancelled, "Task cancelled.")

  function Cut(text: string, max: nat): string {
    if |text| <= max then text else text[..max]
  }

  // ----- one record

  predicate Finished(t: Task) {
    t.state.Ended?
  }

  /** Seal the outcome once. */
  function Decided(t: Task, o: Outcome): Task {
    if t.outcome.Some? then t else t.(outcome := Some(o), state := Stopping)
  }

  function CleanupStarted(t: Task): Task {
    if t.cleanup.NotStarted? then t.(cleanup := Cleaning) else t
  }

  function CleanupRetried(t: Task): Task {
    if t.cleanup.NotStarted? || t.cleanup.Failed? || t.cleanup.Aborted? then t.(cleanup := Cleaning) else t
  }

  function Noted(receipts: seq<Receipt>, id: nat, r: Receipt): seq<Receipt> {
    if id < |receipts| then receipts[id := r] else receipts
  }

  function Marked(receipts: seq<Receipt>, inbox: seq<Item>, r: Receipt): seq<Receipt>
    decreases |inbox|
  {
    if inbox == [] then receipts
    else Marked(Noted(receipts, inbox[0].id, r), inbox[1..], r)
  }

  /** The terminal record. A failed cleanup turns the outcome into an error; output that was produced before
      an outcome other than success is kept as a partial result. */
  function Completed(t: Task, cleanupError: Option<string>, max: nat): Task
    requires t.outcome.Some?
  {
    var o := if cleanupError.Some? then Outcome(Error, cleanupError.value) else t.outcome.value;
    var partial := o.kind != Done && t.output != "";
    t.(state := Ended(o.kind),
       output := Cut(if partial then t.output else o.text, max),
       partial := partial,
       cleanupError := cleanupError.Some?,
       receipts := Marked(t.receipts, t.inbox, Undelivered),
       inbox := [],
       outcome := Some(Outcome(t.outcome.value.kind, Cut(t.outcome.value.text, max))))
  }

  function ToCleanup(t: Task): Task {
    var u := CleanupStarted(t);
    u.(exec := AwaitingCleanup(if u.cleanup.Cleaning? then None else Some(u.cleanup)))
  }

  predicate Deliverable(n: Note) {
    !IsBlank(n.text) && n.bytes <= MAX_MESSAGE_BYTES
  }

  predicate Accepts(t: Task, n: Note) {
    && (t.state.Queued? || t.state.Running?) && Deliverable(n)
    && |t.inbox| < MAX_INBOX && |t.receipts| < MAX_MESSAGES
  }

  function WithNote(t: Task, n: Note): Task {
    var id := |t.sent|;
    t.(sent := t.sent + [n], inbox := t.inbox + [Item(id, n.text)], receipts := t.receipts + [Accepted])
  }

  function Drained(t: Task): Task {
    t.(inbox := [], receipts := Marked(t.receipts, t.inbox, Delivered), delivered := t.delivered + t.inbox)
  }

  /** A task that is told to stop seals its outcome and starts its cleanup, unless it is terminal. */
  function Stopped(t: Task): Task {
    if Finished(t) then t else CleanupStarted(Decided(t, CANCELLED))
  }

  // ----- the manager

  datatype Terminal = Terminal(id: nat, kind: Kind)

  /** `finishes` is the history of finished tasks. */
  datatype Manager = Manager(slots: nat, max: nat, tasks: map<nat, Task>, running: set<nat>, admitted: set<nat>,
                             terminal: seq<Terminal>, closed: bool, created: nat, finishes: seq<nat>)

  function Fresh(slots: nat, max: nat): Manager {
    Manager(slots, max, map[], {}, {}, [], false, 0, [])
  }

  datatype Event =
    | Create
    | Begin(id: nat)
    | GetSlot(id: nat)
    | Output(id: nat, text: string)
    | ExecEnds(id: nat, o: Outcome)
    | Interrupted(id: nat)
    | CleanupEnds(id: nat, how: Cleanup)
    | CleanupCallback(id: nat)
    | Collect(id: nat, message: string)
    | Leaves(id: nat, raised: bool)
    | TaskDone(id: nat, message: string)
    | Send(id: nat, n: Note)
    | Drain(id: nat)
    | Cancel(id: nat)
    | Close
    | RetryCleanup(id: nat)

  /** The steps that change nothing but one record and the set of admitted executions. */
  function TaskStep(t: Task, e: Event, free: bool, max: nat): Task {
    match e
    case Begin(_) =>
      if !t.exec.NotBegun? then t else if t.outcome.Some? then ToCleanup(t) else t.(exec := AwaitingSlot)
    case GetSlot(_) =>
      if !t.exec.AwaitingSlot? || !free then t
      else if t.outcome.Some? then ToCleanup(t) else t.(exec := Executing, state := Running)
    case Output(_, text) =>
      if !t.exec.Executing? || IsBlank(text) then t else t.(output := Cut(text, max), partial := true)
    case ExecEnds(_, o) =>
      if !t.exec.Executing? then t else ToCleanup(Decided(t, o))
    case Interrupted(_) =>
      (match t.exec
       case NotBegun => t.(exec := Exited(false))
       case AwaitingSlot => ToCleanup(Decided(t, CANCELLED))
       case Executing => ToCleanup(Decided(t, CANCELLED))
       case AwaitingCleanup(_) => t.(exec := Exited(false))
       case Announcing => t.(exec := Exited(false))
       case _ => t)
    case CleanupEnds(_, how) =>
      if !t.cleanup.Cleaning? || how.NotStarted? || how.Cleaning? then t
      else t.(cleanup := how, exec := if t.exec == AwaitingCleanup(None) then AwaitingCleanup(Some(how)) else t.exec)
    case Leaves(_, raised) => if t.exec.Announcing? then t.(exec := Exited(raised)) else t
    case Send(_, n) => if Accepts(t, n) then WithNote(t, n) else t
    case Drain(_) => if t.exec.Executing? && t.outcome.None? then Drained(t) else t
    case Cancel(_) => Stopped(t)
    case RetryCleanup(_) => CleanupRetried(t)
    case _ => t
  }

  function WithTask(m: Manager, id: nat, t: Task): Manager {
    m.(tasks := m.tasks[id := t])
  }

  function Put(m: Manager, id: nat, t: Task): Manager {
    m.(tasks := m.tasks[id := t], admitted := if t.exec.Executing? then m.admitted + {id} else m.admitted - {id})
  }

  function Remember(terminal: seq<Terminal>, id: nat, kind: Kind): seq<Terminal> {
    var all := WithTerminal(terminal, id, kind);
    if |all| > MAX_TERMINAL then all[|all| - MAX_TERMINAL..] else all
  }

  /** Storing a status replaces the one of the same task, or comes last. */
  function WithTerminal(terminal: seq<Terminal>, id: nat, kind: Kind): seq<Terminal> {
    if terminal == [] then [Terminal(id, kind)]
    else if terminal[0].id == id then [Terminal(id, kind)] + terminal[1..]
    else [terminal[0]] + WithTerminal(terminal[1..], id, kind)
  }

  function FinishTask(m: Manager, id: nat, t: Task, cleanupError: Option<string>): Manager
    requires t.outcome.Some?
  {
    var u := Completed(t, cleanupError, m.max);
    Put(m, id, u).(terminal := Remember(m.terminal, id, u.state.kind), finishes := m.finishes + [id])
  }

  function Release(m: Manager, id: nat): Manager {
    if id in m.tasks && Finished(m.tasks[id]) && id !in m.running && m.tasks[id].cleanup.Cleaned?
    then m.(tasks := m.tasks - {id}, admitted := m.admitted - {id})
    else m
  }

  /** The execution hears how the cleanup ended and finishes the task. */
  function Heard(m: Manager, id: nat, how: Cleanup, message: string): Manager
    requires id in m.tasks
  {
    var t := m.tasks[id].(exec := Announcing);
    if t.outcome.None? then m else FinishTask(m, id, t, if how.Failed? then Some(message) else None)
  }

  function Collected(m: Manager, id: nat, message: string): Manager
    requires id in m.tasks
  {
    var t := m.tasks[id];
    if !t.exec.AwaitingCleanup? || t.exec.heard.None? then m
    else if t.exec.heard.value.Aborted? then Put(m, id, t.(exec := Exited(false)))
    else Heard(m, id, t.exec.heard.value, message)
  }

  /** The completion callback: an execution that was cancelled from outside still gets its terminal result. */
  function DoneCallback(m: Manager, id: nat, message: string): Manager
    requires id in m.tasks
  {
    if m.tasks[id].exec.Exited? then Release(Departed(m, id, message), id) else m
  }

  /** The callback up to the release of the record. */
  function Departed(m: Manager, id: nat, message: string): Manager
    requires id in m.tasks && m.tasks[id].exec.Exited?
  {
    var t := m.tasks[id];
    var gone := m.(running := m.running - {id});
    if Finished(t) then Put(gone, id, t.(exec := Gone))
    else FinishTask(gone, id, Abandoned(t, message), None)
  }

  function Abandoned(t: Task, message: string): (u: Task)
    requires t.exec.Exited?
    ensures u.outcome.Some?
  {
    CleanupStarted(Decided(t, if t.exec.raised then Outcome(Error, message) else CANCELLED)).(exec := Gone)
  }

  function Created(m: Manager): Manager {
    if m.closed || |m.tasks| >= MAX_ACTIVE then m
    else m.(tasks := m.tasks[m.created := NEW_TASK], running := m.running + {m.created}, created := m.created + 1)
  }

  function Step(m: Manager, e: Event): Manager {
    if e.Create? then Created(m)
    else if e.Close? then m.(closed := true)
    else if e.id !in m.tasks then m
    else if e.CleanupCallback? then Release(m, e.id)
    else if e.Collect? then Collected(m, e.id, e.message)
    else if e.TaskDone? then DoneCallback(m, e.id, e.message)
    else Plain(m, e.id, e)
  }

  function Plain(m: Manager, id: nat, e: Event): Manager
    requires id in m.tasks
  {
    Put(m, id, TaskStep(m.tasks[id], e, |m.admitted| < m.slots, m.max))
  }

  function After(m: Manager, run: seq<Event>): Manager {
    if run == [] then m else Step(After(m, run[..|run| - 1]), run[|run| - 1])
  }

  // ----- what every record keeps

  /** The messages with the ids from `a` up to `b`. */
  function Items(sent: seq<Note>, a: nat, b: nat): seq<Item>
    requires b <= |sent|
  {
    seq(if a <= b then b - a else 0, i requires 0 <= i < b - a => Item(a + i, sent[a + i].text))
  }

  /** The receipts of `n` messages of which the first `d` are delivered and the others stand at `r`. */
  function Receipts(d: nat, n: nat, r: Receipt): (s: seq<Receipt>)
    ensures |s| == n
  {
    seq(n, i requires 0 <= i < n => if i < d then Delivered else r)
  }

  /** Delivered messages are the first ones accepted, in order; the inbox holds the others exactly while the
      task is not terminal, and the receipts say the same. */
  predicate Balanced(finished: bool, inbox: seq<Item>, receipts: seq<Receipt>, sent: seq<Note>, delivered: seq<Item>) {
    && |delivered| <= |sent| <= MAX_MESSAGES && delivered == Items(sent, 0, |delivered|)
    && inbox == (if finished then [] else Items(sent, |delivered|, |sent|)) && |inbox| <= MAX_INBOX
    && receipts == Receipts(|delivered|, |sent|, if finished then Undelivered else Accepted)
  }

  predicate Accounted(t: Task) {
    Balanced(Finished(t), t.inbox, t.receipts, t.sent, t.delivered)
  }

  /** The outcome seals the state; an execution finishes its task behind the cleanup or not at all. */
  predicate Sealed(t: Task) {
    && (t.outcome.None? <==> t.state.Queued? || t.state.Running?)
    && (t.exec.NotBegun? || t.exec.AwaitingSlot? ==> t.state.Queued? || t.state.Stopping?)
    && (t.exec.Executing? ==> t.state.Running? || t.state.Stopping?)
    && (t.exec.AwaitingCleanup? ==>
          && t.state.Stopping? && t.exec.heard != Some(NotStarted) && t.exec.heard != Some(Cleaning)
          && !t.cleanup.NotStarted? && (t.exec.heard.None? ==> t.cleanup.Cleaning?))
    && (t.exec.Announcing? || t.exec.Gone? ==> Finished(t))
    && (Finished(t) ==> !t.cleanup.NotStarted?)
    && (t.state.Ended? ==> t.state.kind == if t.cleanupError then Error else t.outcome.value.kind)
    && (!Finished(t) ==> !t.cleanupError)
  }

  lemma ItemsFrom(sent: seq<Note>, a: nat, b: nat)
    requires a < b <= |sent|
    ensures Items(sent, a, b) == [Item(a, sent[a].text)] + Items(sent, a + 1, b)
  {
  }

  lemma ItemsJoin(sent: seq<Note>, a: nat, b: nat, c: nat)
    requires a <= b <= c <= |sent|
    ensures Items(sent, a, b) + Items(sent, b, c) == Items(sent, a, c) && |Items(sent, b, c)| == c - b
  {
  }

  lemma ItemsStay(sent: seq<Note>, n: Note, a: nat, b: nat)
    requires b <= |sent|
    ensures Items(sent + [n], a, b) == Items(sent, a, b)
  {
  }

  lemma ReceiptAt(d: nat, n: nat, r: Receipt, i: nat)
    requires i < n
    ensures Receipts(d, n, r)[i] == if i < d then Delivered else r
  {
  }

  /** Marking the messages from `a` on makes their receipts stand at `r` and leaves the others alone. */
  lemma {:induction false} MarkedSpan(receipts: seq<Receipt>, sent: seq<Note>, a: nat, r: Receipt)
    requires a <= |sent| == |receipts|
    ensures var marked := Marked(receipts, Items(sent, a, |sent|), r);
            |marked| == |sent| && forall i | 0 <= i < |sent| :: marked[i] == if i < a then receipts[i] else r
    decreases |sent| - a
  {
    if a < |sent| {
      var rest := Items(sent, a + 1, |sent|);
      ItemsFrom(sent, a, |sent|);
      assert ([Item(a, sent[a].text)] + rest)[1..] == rest;
      MarkedSpan(receipts[a := r], sent, a + 1, r);
    }
  }

  lemma MarkedReceipts(sent: seq<Note>, d: nat, r: Receipt)
    requires d <= |sent|
    ensures Marked(Receipts(d, |sent|, Accepted), Items(sent, d, |sent|), r)
         == Receipts(if r == Delivered then |sent| else d, |sent|, r)
  {
    var n := |sent|;
    MarkedSpan(Receipts(d, n, Accepted), sent, d, r);
    var goal := Receipts(if r == Delivered then n else d, n, r);
    var marked := Marked(Receipts(d, n, Accepted), Items(sent, d, n), r);
    forall i | 0 <= i < n ensures marked[i] == goal[i] {
      ReceiptAt(d, n, Accepted, i);
      ReceiptAt(if r == Delivered then n else d, n, r, i);
    }
  }

  lemma {:induction false} AllDelivered(n: nat)
    ensures Receipts(n, n, Delivered) == Receipts(n, n, Accepted)
  {
  }

  lemma CompletionKeepsAccounts(t: Task, cleanupError: Option<string>, max: nat)
    requires Accounted(t) && t.outcome.Some? && !Finished(t)
    ensures Accounted(Completed(t, cleanupError, max))
  {
    MarkedReceipts(t.sent, |t.delivered|, Undelivered);
  }

  lemma OneMoreItem(sent: seq<Note>, n: Note, d: nat)
    requires d <= |sent|
    ensures Items(sent + [n], 0, d) == Items(sent, 0, d)
    ensures Items(sent + [n], d, |sent| + 1) == Items(sent, d, |sent|) + [Item(|sent|, n.text)]
  {
    ItemsStay(sent, n, 0, d);
    ItemsStay(sent, n, d, |sent|);
  }

  lemma OneMoreReceipt(d: nat, n: nat)
    requires d <= n
    ensures Receipts(d, n + 1, Accepted) == Receipts(d, n, Accepted) + [Accepted]
  {
  }

  lemma NoteKeepsAccounts(t: Task, n: Note)
    requires Accounted(t) && Accepts(t, n)
    ensures Accounted(WithNote(t, n))
  {
    OneMoreItem(t.sent, n, |t.delivered|);
    OneMoreReceipt(|t.delivered|, |t.sent|);
  }

  lemma DrainKeepsAccounts(t: Task)
    requires Accounted(t) && !Finished(t)
    ensures Accounted(Drained(t))
  {
    var (d, n) := (|t.delivered|, |t.sent|);
    MarkedReceipts(t.sent, d, Delivered);
    AllDelivered(n);
    ItemsJoin(t.sent, 0, d, n);
  }

  lemma StepKeepsAccounts(t: Task, e: Event, free: bool, max: nat)
    requires Accounted(t) && Sealed(t)
    ensures Accounted(TaskStep(t, e, free, max))
  {
    match e
    case Send(_, n) => if Accepts(t, n) { NoteKeepsAccounts(t, n); }
    case Drain(_) => if t.exec.Executing? && t.outcome.None? { DrainKeepsAccounts(t); }
    case _ =>
  }

  lemma StepKeepsSeal(t: Task, e: Event, free: bool, max: nat)
    requires Sealed(t)
    ensures Sealed(TaskStep(t, e, free, max))
  {
  }

  // ----- what the manager keeps

  /** A record has a registered execution exactly until its completion callback has run. */
  predicate Booked(m: Manager, id: nat)
    requires id in m.tasks
  {
    var t := m.tasks[id];
    && id < m.created
    && (id in m.running <==> !t.exec.Gone?)
    && (id in m.admitted <==> t.exec.Executing?)
    && (id in m.finishes <==> Finished(t))
  }

  predicate TaskOk(t: Task) {
    Sealed(t) && Accounted(t)
  }

  predicate Distinct(ids: seq<nat>) {
    forall i, j | 0 <= i < j < |ids| :: ids[i] != ids[j]
  }

  function TerminalIds(terminal: seq<Terminal>): (r: seq<nat>)
    ensures |r| == |terminal|
  {
    seq(|terminal|, i requires 0 <= i < |terminal| => terminal[i].id)
  }

  predicate EveryTaskOk(tasks: map<nat, Task>) {
    forall id :: id in tasks ==> TaskOk(tasks[id])
  }

  predicate EveryTaskBooked(m: Manager) {
    forall id :: id in m.tasks ==> Booked(m, id)
  }

  predicate Bounded(m: Manager) {
    && |m.tasks| <= MAX_ACTIVE && |m.terminal| <= MAX_TERMINAL && |m.admitted| <= m.slots
    && m.admitted <= m.tasks.Keys && m.running <= m.tasks.Keys
  }

  function Last(ids: seq<nat>, n: nat): seq<nat>
    requires n <= |ids|
  {
    ids[|ids| - n..]
  }

  /** The retained terminal statuses are those of the last tasks that finished. */
  predicate Remembered(m: Manager) {
    && Distinct(m.finishes) && (forall id :: id in m.finishes ==> id < m.created)
    && |m.terminal| == (if |m.finishes| <= MAX_TERMINAL then |m.finishes| else MAX_TERMINAL)
    && TerminalIds(m.terminal) == Last(m.finishes, |m.terminal|)
  }

  predicate Inv(m: Manager) {
    EveryTaskOk(m.tasks) && EveryTaskBooked(m) && Bounded(m) && Remembered(m)
  }

  lemma StepFacts(t: Task, e: Event, free: bool, max: nat)
    requires Sealed(t) && !e.Create? && !e.Close? && !e.Collect? && !e.TaskDone?
    ensures var u := TaskStep(t, e, free, max);
            && (u.exec.Gone? <==> t.exec.Gone?) && (Finished(u) <==> Finished(t))
            && (u.exec.Executing? ==> t.exec.Executing? || (free && e.GetSlot?))
  {
  }

  lemma SetTaskOk(tasks: map<nat, Task>, id: nat, t: Task)
    requires EveryTaskOk(tasks) && TaskOk(t)
    ensures EveryTaskOk(tasks[id := t])
  {
  }

  lemma PutBooks(m: Manager, id: nat, t: Task)
    requires EveryTaskBooked(m) && Bounded(m) && id in m.tasks
    requires (t.exec.Gone? <==> m.tasks[id].exec.Gone?) && (Finished(t) <==> Finished(m.tasks[id]))
    requires t.exec.Executing? ==> id in m.admitted || |m.admitted| < m.slots
    ensures EveryTaskBooked(Put(m, id, t)) && Bounded(Put(m, id, t))
  {
    var n := Put(m, id, t);
    assert n.tasks.Keys == m.tasks.Keys;
    assert Booked(m, id);
    forall i | i in n.tasks ensures Booked(n, i) {
      assert Booked(m, i);
    }
  }

  lemma PutKeepsInv(m: Manager, id: nat, t: Task)
    requires Inv(m) && id in m.tasks && TaskOk(t)
    requires (t.exec.Gone? <==> m.tasks[id].exec.Gone?) && (Finished(t) <==> Finished(m.tasks[id]))
    requires t.exec.Executing? ==> id in m.admitted || |m.admitted| < m.slots
    ensures Inv(Put(m, id, t))
  {
    SetTaskOk(m.tasks, id, t);
    PutBooks(m, id, t);
  }

  lemma PlainStepKeepsInv(m: Manager, e: Event)
    requires Inv(m) && !e.Create? && !e.Close? && !e.Collect? && !e.TaskDone? && e.id in m.tasks
    ensures Inv(Plain(m, e.id, e))
  {
    var t, free := m.tasks[e.id], |m.admitted| < m.slots;
    assert TaskOk(t) && Booked(m, e.id);
    StepFacts(t, e, free, m.max);
    StepKeepsSeal(t, e, free, m.max);
    StepKeepsAccounts(t, e, free, m.max);
    PutKeepsInv(m, e.id, TaskStep(t, e, free, m.max));
  }

  lemma FreshTask()
    ensures TaskOk(NEW_TASK)
  {
  }

  lemma CreateKeepsInv(m: Manager)
    requires Inv(m)
    ensures Inv(Created(m))
  {
    if !m.closed && |m.tasks| < MAX_ACTIVE {
      FreshTask();
      SetTaskOk(m.tasks, m.created, NEW_TASK);
      CreateBooks(m);
    }
  }

  lemma CreateBooks(m: Manager)
    requires EveryTaskBooked(m) && Bounded(m) && Remembered(m) && !m.closed && |m.tasks| < MAX_ACTIVE
    ensures EveryTaskBooked(Created(m)) && Bounded(Created(m)) && Remembered(Created(m))
  {
    var n := Created(m);
    assert m.created !in m.tasks by { assert m.created in m.tasks ==> Booked(m, m.created); }
    assert n.tasks.Keys == m.tasks.Keys + {m.created};
    forall i | i in n.tasks ensures Booked(n, i) {
      assert i != m.created ==> Booked(m, i);
    }
  }

  lemma ReleaseKeepsInv(m: Manager, id: nat)
    requires Inv(m)
    ensures Inv(Release(m, id))
  {
    var n := Release(m, id);
    if n != m {
      assert Booked(m, id);
      assert n.tasks.Keys == m.tasks.Keys - {id};
      forall i | i in n.tasks ensures Booked(n, i) {
        assert Booked(m, i);
      }
    }
  }

  /** A status of a new task comes last. */
  lemma {:induction false} StoredBehind(terminal: seq<Terminal>, id: nat, kind: Kind)
    requires id !in TerminalIds(terminal)
    ensures WithTerminal(terminal, id, kind) == terminal + [Terminal(id, kind)]
  {
    if terminal != [] {
      assert TerminalIds(terminal) == [terminal[0].id] + TerminalIds(terminal[1..]);
      StoredBehind(terminal[1..], id, kind);
      assert terminal == [terminal[0]] + terminal[1..];
    }
  }

  lemma StoredLast(terminal: seq<Terminal>, id: nat, kind: Kind)
    requires id !in TerminalIds(terminal)
    ensures TerminalIds(WithTerminal(terminal, id, kind)) == TerminalIds(terminal) + [id]
  {
    StoredBehind(terminal, id, kind);
  }

  lemma {:induction false} IdsBehind(terminal: seq<Terminal>, k: nat)
    requires k <= |terminal|
    ensures TerminalIds(terminal[k..]) == TerminalIds(terminal)[k..]
  {
    if k == 0 {
      assert terminal[0..] == terminal;
    } else {
      IdsBehind(terminal[1..], k - 1);
      assert terminal[k..] == terminal[1..][k - 1..];
    }
  }

  lemma LastSnoc(ids: seq<nat>, n: nat, id: nat)
    requires n <= |ids|
    ensures Last(ids + [id], n + 1) == Last(ids, n) + [id]
  {
  }

  lemma LastOfLast(ids: seq<nat>, n: nat, k: nat)
    requires k <= n <= |ids|
    ensures Last(ids, n)[k..] == Last(ids, n - k)
  {
  }

  lemma DistinctSnoc(ids: seq<nat>, id: nat)
    requires Distinct(ids) && id !in ids
    ensures Distinct(ids + [id])
  {
    assert (ids + [id])[..|ids|] == ids;
  }

  lemma StoredIsLast(terminal: seq<Terminal>, finishes: seq<nat>, id: nat, kind: Kind)
    requires |terminal| <= |finishes| && TerminalIds(terminal) == Last(finishes, |terminal|) && id !in finishes
    ensures var stored := WithTerminal(terminal, id, kind);
            |stored| == |terminal| + 1 && TerminalIds(stored) == Last(finishes + [id], |terminal| + 1)
  {
    assert id !in TerminalIds(terminal);
    StoredLast(terminal, id, kind);
    LastSnoc(finishes, |terminal|, id);
    assert |TerminalIds(WithTerminal(terminal, id, kind))| == |terminal| + 1;
  }

  lemma CutIsLast(stored: seq<Terminal>, finishes: seq<nat>, k: nat)
    requires k <= |stored| <= |finishes| && TerminalIds(stored) == Last(finishes, |stored|)
    ensures TerminalIds(stored[k..]) == Last(finishes, |stored| - k)
  {
    IdsBehind(stored, k);
    LastOfLast(finishes, |stored|, k);
  }

  lemma RememberKeepsLast(terminal: seq<Terminal>, finishes: seq<nat>, id: nat, kind: Kind)
    requires |terminal| == (if |finishes| <= MAX_TERMINAL then |finishes| else MAX_TERMINAL)
    requires TerminalIds(terminal) == Last(finishes, |terminal|) && id !in finishes
    ensures var (kept, all) := (Remember(terminal, id, kind), finishes + [id]);
            && |kept| == (if |all| <= MAX_TERMINAL then |all| else MAX_TERMINAL)
            && TerminalIds(kept) == Last(all, |kept|)
  {
    StoredIsLast(terminal, finishes, id, kind);
    var stored := WithTerminal(terminal, id, kind);
    if |stored| > MAX_TERMINAL {
      CutIsLast(stored, finishes + [id], |stored| - MAX_TERMINAL);
    }
  }

  lemma FinishIsRemembered(m: Manager, id: nat, kind: Kind, n: Manager)
    requires Remembered(m) && id !in m.finishes && id < m.created
    requires n.terminal == Remember(m.terminal, id, kind) && n.finishes == m.finishes + [id] && n.created == m.created
    ensures Remembered(n) && |n.terminal| <= MAX_TERMINAL
  {
    RememberKeepsLast(m.terminal, m.finishes, id, kind);
    DistinctSnoc(m.finishes, id);
  }

  /** A record that may be finished now, with what its execution does next. */
  predicate Finishable(t: Task) {
    Accounted(t) && t.outcome.Some? && !Finished(t) && !t.cleanup.NotStarted? && (t.exec.Announcing? || t.exec.Gone?)
  }

  lemma CompletedIsOk(t: Task, cleanupError: Option<string>, max: nat)
    requires Finishable(t)
    ensures TaskOk(Completed(t, cleanupError, max))
  {
    CompletionKeepsAccounts(t, cleanupError, max);
  }

  lemma FinishBooks(m: Manager, id: nat, u: Task, n: Manager)
    requires EveryTaskBooked(m) && Bounded(m) && Remembered(m) && id in m.tasks && !Finished(m.tasks[id]) && Finished(u)
    requires u.exec.Announcing? || u.exec.Gone?
    requires n.tasks == m.tasks[id := u] && n.admitted == m.admitted - {id} && n.created == m.created
             && n.slots == m.slots
    requires n.running == (if u.exec.Gone? then m.running - {id} else m.running)
             && (u.exec.Announcing? ==> id in m.running)
    requires n.finishes == m.finishes + [id] && |n.terminal| <= MAX_TERMINAL
    ensures EveryTaskBooked(n) && Bounded(n)
  {
    assert Booked(m, id);
    assert n.tasks.Keys == m.tasks.Keys;
    forall i | i in n.tasks ensures Booked(n, i) {
      assert Booked(m, i);
    }
  }

  /** `m` is the manager before the step, `gone` the same or without the registered execution of the task. */
  lemma FinishKeepsInv(m: Manager, gone: Manager, id: nat, t: Task, cleanupError: Option<string>)
    requires Inv(m) && id in m.tasks && !Finished(m.tasks[id]) && Finishable(t)
    requires if t.exec.Announcing? then gone == m && id in m.running else gone == m.(running := m.running - {id})
    ensures Inv(FinishTask(gone, id, t, cleanupError))
  {
    var u := Completed(t, cleanupError, m.max);
    assert Booked(m, id);
    CompletedIsOk(t, cleanupError, m.max);
    SetTaskOk(m.tasks, id, u);
    FinishIsRemembered(m, id, u.state.kind, FinishTask(gone, id, t, cleanupError));
    FinishBooks(m, id, u, FinishTask(gone, id, t, cleanupError));
  }

  lemma HeardKeepsInv(m: Manager, id: nat, how: Cleanup, message: string)
    requires Inv(m) && id in m.tasks && m.tasks[id].exec.AwaitingCleanup?
    ensures Inv(Heard(m, id, how, message))
  {
    var t := m.tasks[id];
    assert TaskOk(t) && Booked(m, id);
    CleanupWasHeard(t);
    FinishKeepsInv(m, m, id, t.(exec := Announcing), if how.Failed? then Some(message) else None);
  }

  lemma CollectKeepsInv(m: Manager, id: nat, message: string)
    requires Inv(m) && id in m.tasks
    ensures Inv(Collected(m, id, message))
  {
    var t := m.tasks[id];
    if t.exec.AwaitingCleanup? && t.exec.heard.Some? {
      if t.exec.heard.value.Aborted? {
        assert TaskOk(t);
        PutKeepsInv(m, id, t.(exec := Exited(false)));
      } else {
        HeardKeepsInv(m, id, t.exec.heard.value, message);
      }
    }
  }

  lemma CleanupWasHeard(t: Task)
    requires TaskOk(t) && t.exec.AwaitingCleanup?
    ensures Finishable(t.(exec := Announcing)) && !Finished(t)
  {
  }

  lemma GoneKeepsInv(m: Manager, id: nat)
    requires Inv(m) && id in m.tasks && Finished(m.tasks[id]) && !m.tasks[id].exec.Executing?
    ensures Inv(Put(m.(running := m.running - {id}), id, m.tasks[id].(exec := Gone)))
  {
    var t := m.tasks[id];
    assert TaskOk(t);
    GoneIsOk(t);
    SetTaskOk(m.tasks, id, t.(exec := Gone));
    GoneBooks(m, id);
  }

  lemma GoneIsOk(t: Task)
    requires TaskOk(t) && Finished(t)
    ensures TaskOk(t.(exec := Gone))
  {
  }

  lemma GoneBooks(m: Manager, id: nat)
    requires EveryTaskBooked(m) && Bounded(m) && Remembered(m)
    requires id in m.tasks && Finished(m.tasks[id]) && !m.tasks[id].exec.Executing?
    ensures var n := Put(m.(running := m.running - {id}), id, m.tasks[id].(exec := Gone));
            EveryTaskBooked(n) && Bounded(n) && Remembered(n)
  {
    var n := Put(m.(running := m.running - {id}), id, m.tasks[id].(exec := Gone));
    assert Booked(m, id);
    assert n.tasks.Keys == m.tasks.Keys;
    forall i | i in n.tasks ensures Booked(n, i) {
      assert Booked(m, i);
    }
  }

  lemma AbandonedIsFinishable(t: Task, message: string)
    requires TaskOk(t) && t.exec.Exited? && !Finished(t)
    ensures Finishable(Abandoned(t, message))
  {
  }

  lemma DepartKeepsInv(m: Manager, id: nat, message: string)
    requires Inv(m) && id in m.tasks && m.tasks[id].exec.Exited?
    ensures Inv(Departed(m, id, message))
  {
    var t := m.tasks[id];
    if Finished(t) {
      GoneKeepsInv(m, id);
    } else {
      assert TaskOk(t);
      AbandonedIsFinishable(t, message);
      FinishKeepsInv(m, m.(running := m.running - {id}), id, Abandoned(t, message), None);
    }
  }

  lemma DoneKeepsInv(m: Manager, id: nat, message: string)
    requires Inv(m) && id in m.tasks
    ensures Inv(DoneCallback(m, id, message))
  {
    if m.tasks[id].exec.Exited? {
      DepartKeepsInv(m, id, message);
      ReleaseKeepsInv(Departed(m, id, message), id);
    }
  }

  lemma StepKeepsInv(m: Manager, e: Event)
    requires Inv(m)
    ensures Inv(Step(m, e))
  {
    if e.Create? {
      CreateKeepsInv(m);
    } else if !e.Close? && e.id in m.tasks {
      if e.CleanupCallback? {
        ReleaseKeepsInv(m, e.id);
      } else if e.Collect? {
        CollectKeepsInv(m, e.id, e.message);
      } else if e.TaskDone? {
        DoneKeepsInv(m, e.id, e.message);
      } else {
        PlainStepKeepsInv(m, e);
      }
    }
  }

  lemma {:induction false} EveryRunKeepsInv(slots: nat, max: nat, run: seq<Event>)
    ensures Inv(After(Fresh(slots, max), run))
  {
    if run == [] {
      assert Fresh(slots, max).finishes[0..] == [];
    } else {
      EveryRunKeepsInv(slots, max, run[..|run| - 1]);
      StepKeepsInv(After(Fresh(slots, max), run[..|run| - 1]), run[|run| - 1]);
    }
  }
}
