/** One runner turn: the raw transcript grows by whole exchanges, and every model request is built
    from accepted rows plus unsent rows. The reference runner builds every request from the raw
    transcript; both send the same requests. */
module RunnerTurn {
  import opened Transcript
  import opened Repair
  import opened Pairing
  import opened Requests
  import opened RepairPasses
  import opened CompactionState

  /** In parts because the verifier knows the characters of short literals only. */
  const EMPTY_FINAL_RESPONSE_MESSAGE: string :=
    "I completed the tool steps " + "but couldn't produce " + "a final answer. "
    + "Please try again or narrow the task."
  const MODEL_ERROR_PLACEHOLDER: string := "[Assistant reply unavailable due to model error.]"
  const RECOVERY_TAIL_CHARS: nat := 64

  /** The prompt that asks the model to go on after the delivered tail of a truncated answer. */
  function RecoveryRow(prompt: string -> string, delivered: string): Message {
    var tail := if |delivered| <= RECOVERY_TAIL_CHARS then delivered
      else delivered[|delivered| - RECOVERY_TAIL_CHARS..];
    Row(User, Str(prompt(tail)))
  }

  /** What a request measures: it fits, or it is over budget and a summary of H comes back (empty
      when there is none) that does or does not make it fit. */
  datatype Pressure = Relaxed | Pressured(summary: string, fits: bool)

  /** What follows a response. `Continue` is a final answer after which more input was injected. */
  datatype Outcome =
    | Tools(text: string, calls: seq<ToolCall>, results: seq<Content>)
    | EmptyRetry
    | Truncated(text: string)
    | Continue(answer: Option<string>, injected: seq<Message>)
    | ErrorThen(injected: seq<Message>)
    | BlankThen(injected: seq<Message>)
    | Stop

  datatype Round = Round(injected: seq<Message>, pressure: Pressure, outcome: Outcome)

  datatype Setup = Setup(norm: Normalizer, builder: SummaryBuilder, prompt: string -> string)

  predicate Plain(m: Message) {
    m.role == Assistant && m.calls == []
  }

  predicate PlainTail(msgs: seq<Message>) {
    msgs != [] && Plain(msgs[|msgs| - 1])
  }

  function AssistantRow(text: string, calls: seq<ToolCall>): Message {
    Row(Assistant, Str(text)).(calls := calls)
  }

  function CallName(call: ToolCall): string {
    if !call.Call? then ""
    else var field := if call.fn.Some? then call.fn.value else call.name;
         if field.Named? then field.text else ""
  }

  /** One result row per call, in call order; like `zip`, it stops at the shorter list. */
  function ResultRows(norm: Normalizer, calls: seq<ToolCall>, results: seq<Content>): seq<Message> {
    if calls == [] || results == [] then []
    else
      var id, name := if calls[0].Call? then calls[0].id else "", CallName(calls[0]);
      [ToolRow(id, name, norm(OfCall(id), name, results[0]))] + ResultRows(norm, calls[1..], results[1..])
  }

  /** `_append_final_message`: replaces a plain assistant row at the end. */
  function AppendFinal(msgs: seq<Message>, text: string): seq<Message> {
    if PlainTail(msgs) then
      if msgs[|msgs| - 1].content == Str(text) then msgs else msgs[..|msgs| - 1] + [AssistantRow(text, [])]
    else msgs + [AssistantRow(text, [])]
  }

  /** `_append_model_error_placeholder`. */
  function AppendError(msgs: seq<Message>): seq<Message> {
    if PlainTail(msgs) then msgs else msgs + [AssistantRow(MODEL_ERROR_PLACEHOLDER, [])]
  }

  /** The transcript when the request of a round is built. */
  function BeforeRequest(setup: Setup, msgs: seq<Message>, pending: Option<string>,
                         injected: seq<Message>): seq<Message> {
    if injected != [] then msgs + injected
    else if pending.Some? then msgs + [RecoveryRow(setup.prompt, pending.value)]
    else msgs
  }

  function AfterResponse(norm: Normalizer, msgs: seq<Message>, outcome: Outcome): (r: seq<Message>)
    ensures |msgs| <= |r|
  {
    match outcome
    case Tools(text, calls, results) => msgs + [AssistantRow(text, calls)] + ResultRows(norm, calls, results)
    case EmptyRetry => msgs
    case Truncated(text) => msgs + [AssistantRow(text, [])]
    case Continue(answer, injected) =>
      msgs + (if answer.Some? then [AssistantRow(answer.value, [])] else []) + injected
    case ErrorThen(injected) => AppendError(msgs) + injected
    case BlankThen(injected) => AppendFinal(msgs, EMPTY_FINAL_RESPONSE_MESSAGE) + injected
    case Stop => msgs
  }

  // ----- the reference runner

  /** The raw transcript; what the model knows of it is `base` followed by the rows from `cut` on.
      `sent` is the transcript length at the last request. */
  datatype Reference = Reference(messages: seq<Message>, base: seq<Message>, cut: nat, sent: nat,
                                 pending: Option<string>)

  predicate InBounds(r: Reference) {
    r.cut <= r.sent <= |r.messages|
  }

  function Known(r: Reference): seq<Message>
    requires InBounds(r)
  {
    r.base + r.messages[r.cut..r.sent]
  }

  function Delta(r: Reference): seq<Message>
    requires InBounds(r)
  {
    r.messages[r.sent..]
  }

  function Ready(setup: Setup, r: Reference, injected: seq<Message>): (r': Reference)
    requires InBounds(r)
    ensures InBounds(r')
  {
    r.(messages := BeforeRequest(setup, r.messages, r.pending, injected), pending := None)
  }

  /** After a summary the model knows the summary rows, and the delta stays. */
  function Compacted(setup: Setup, r: Reference, summary: string): (r': Reference)
    requires InBounds(r)
    ensures InBounds(r') && Delta(r') == Delta(r)
  {
    r.(base := setup.builder(summary) + Continuation(Delta(r)), cut := r.sent)
  }

  /** The state whose whole content is requested; `None` when the request cannot be made. */
  function Requested(setup: Setup, r: Reference, pressure: Pressure): (o: Option<Reference>)
    requires InBounds(r)
    ensures o.Some? ==> InBounds(o.value)
  {
    match pressure
    case Relaxed => Some(r)
    case Pressured(summary, fits) => if summary == "" || !fits then None else Some(Compacted(setup, r, summary))
  }

  /** Everything that the model knows or is about to know. */
  function Whole(r: Reference): seq<Message>
    requires InBounds(r)
  {
    r.base + r.messages[r.cut..]
  }

  function Rebuild(setup: Setup, r: Reference): seq<Message>
    requires InBounds(r)
  {
    Prepared(setup.norm, Whole(r))
  }

  function Responded(setup: Setup, r: Reference, outcome: Outcome): (r': Reference)
    requires InBounds(r)
    ensures InBounds(r')
  {
    r.(messages := AfterResponse(setup.norm, r.messages, outcome),
       sent := |r.messages|,
       pending := if outcome.Truncated? then Some(outcome.text) else None)
  }

  /** The state of the reference runner after one round, if the request was made. */
  function Next(setup: Setup, r: Reference, round: Round): (o: Option<Reference>)
    requires InBounds(r)
    ensures o.Some? ==> InBounds(o.value)
  {
    var o := Requested(setup, Ready(setup, r, round.injected), round.pressure);
    if o.None? then None else Some(Responded(setup, o.value, round.outcome))
  }

  /** The request that the reference runner sends in one round. */
  function Sent(setup: Setup, r: Reference, round: Round): Option<seq<Message>>
    requires InBounds(r)
  {
    var o := Requested(setup, Ready(setup, r, round.injected), round.pressure);
    if o.None? then None else Some(Rebuild(setup, o.value))
  }

  /** The requests that the reference runner sends. */
  function ReferenceRequests(setup: Setup, r: Reference, rounds: seq<Round>): seq<seq<Message>>
    requires InBounds(r)
    decreases |rounds|
  {
    if rounds == [] then []
    else
      var sent := Sent(setup, r, rounds[0]);
      if sent.None? then []
      else if rounds[0].outcome.Stop? then [sent.value]
      else [sent.value] + ReferenceRequests(setup, Next(setup, r, rounds[0]).value, rounds[1..])
  }

  // ----- what a turn may do

  ghost predicate AllUser(rows: seq<Message>) {
    forall m | m in rows :: m.role == User
  }

  /** Calls with usable names and distinct, non-empty ids, none of which is still open. */
  ghost predicate UsableNewCalls(known: seq<Message>, calls: seq<ToolCall>) {
    && calls != []
    && (forall i | 0 <= i < |calls| :: ValidName(calls[i]) && calls[i].id != "")
    && (forall i, j | 0 <= i < j < |calls| :: calls[i].id != calls[j].id)
    && CallIds(calls) !! OpenIds(known)
  }

  ghost predicate OutcomeOk(known: seq<Message>, outcome: Outcome) {
    match outcome
    case Tools(_, calls, results) => |calls| == |results| && UsableNewCalls(known, calls)
    case Continue(_, injected) => injected != [] && AllUser(injected)
    case ErrorThen(injected) => injected != [] && AllUser(injected)
    case BlankThen(injected) => injected != [] && AllUser(injected)
    case _ => true
  }

  /** A round injects user rows, and a response does not call an id again that the request left open. */
  ghost predicate RoundOk(setup: Setup, r: Reference, round: Round)
    requires InBounds(r)
  {
    && AllUser(round.injected)
    && var o := Requested(setup, Ready(setup, r, round.injected), round.pressure);
       (o.Some? ==> OutcomeOk(Whole(o.value), round.outcome))
  }

  /** The state before round `k`; `None` when the run ended before. */
  function StateAt(setup: Setup, r: Reference, rounds: seq<Round>, k: nat): (o: Option<Reference>)
    requires InBounds(r) && k <= |rounds|
    ensures o.Some? ==> InBounds(o.value)
  {
    if k == 0 then Some(r)
    else
      var before := StateAt(setup, r, rounds, k - 1);
      if before.None? || rounds[k - 1].outcome.Stop? then None else Next(setup, before.value, rounds[k - 1])
  }

  /** Every round of a run is such a round. */
  ghost predicate RunOk(setup: Setup, r: Reference, rounds: seq<Round>)
    requires InBounds(r)
  {
    forall k | 0 <= k < |rounds| :: RoundOkAt(setup, r, rounds, k)
  }

  ghost predicate RoundOkAt(setup: Setup, r: Reference, rounds: seq<Round>, k: nat)
    requires InBounds(r) && k < |rounds|
  {
    var before := StateAt(setup, r, rounds, k);
    before.Some? ==> RoundOk(setup, before.value, rounds[k])
  }

  /** The summary rows hold instructions only. */
  ghost predicate InstructionsOnly(setup: Setup) {
    forall summary :: forall m | m in setup.builder(summary) :: m.role.OtherRole?
  }

  /** What holds before every round: the delta brings whole exchanges and leaves alone what the model saw
      called without a result, and no plain answer waits for a follow-up row. */
  ghost predicate Sound(r: Reference) {
    && InBounds(r)
    && NothingLingers(Known(r)) && UnansweredOnce(Known(r)) && Closed(Delta(r))
    && OpenIds(Known(r)) !! Declared(Delta(r))
    && (r.pending.None? ==> !PlainTail(r.messages))
  }

  lemma SoundIsIndependent(r: Reference)
    requires Sound(r)
    ensures Independent(Known(r), Delta(r))
  {
    StrippedDeclares(Delta(r));
  }

  lemma {:induction false} UserRowsClosed(rows: seq<Message>, declared: set<string>, answered: set<string>)
    requires forall m | m in rows :: m.role != Tool && (m.role == Assistant ==> m.calls == [])
    ensures Legal(rows, declared, answered) && Declared(rows) == {} && Answered(rows) == {}
    ensures UsableCalls(rows) && NothingLingers(rows)
  {
    if rows != [] {
      assert rows == [rows[0]] + rows[1..];
      UserRowsClosed(rows[1..], DeclaredAfter(rows[0], declared), answered);
    }
  }

  lemma ClosedAppend(a: seq<Message>, b: seq<Message>)
    requires Closed(a) && Closed(b) && Declared(a) !! Declared(b)
    ensures Closed(a + b) && Declared(a + b) == Declared(a) + Declared(b)
  {
    LegalSplit(a, b, {}, {});
    UsableCallsSplit(a, b);
    LegalContext(b, {}, {}, Declared(a), Answered(a));
    assert {} + Declared(a) == Declared(a) && {} + Answered(a) == Answered(a);
    DeclaredSplit(a, b);
    AnsweredSplit(a, b);
  }

  lemma {:induction false} LegalContext(msgs: seq<Message>, declared: set<string>, answered: set<string>,
                                        d: set<string>, a: set<string>)
    requires Legal(msgs, declared, answered) && Answered(msgs) !! a
    ensures Legal(msgs, declared + d, answered + a)
  {
    if msgs != [] {
      var m, rest := msgs[0], msgs[1..];
      LegalContext(rest, DeclaredAfter(m, declared), AnsweredAfter(m, answered), d, a);
      assert DeclaredAfter(m, declared + d) == DeclaredAfter(m, declared) + d;
      assert AnsweredAfter(m, answered + a) == AnsweredAfter(m, answered) + a;
      assert m.role == Tool ==> m.toolId in Answered(msgs);
    }
  }

  /** The results of an exchange answer its calls, each once. */
  lemma {:induction false} ResultsAnswerCalls(norm: Normalizer, calls: seq<ToolCall>, results: seq<Content>,
                                              declared: set<string>, answered: set<string>)
    requires |calls| == |results| && CallIds(calls) <= declared && CallIds(calls) !! answered
    requires forall i | 0 <= i < |calls| :: calls[i].Call? && calls[i].id != ""
    requires forall i, j | 0 <= i < j < |calls| :: calls[i].id != calls[j].id
    ensures var rows := ResultRows(norm, calls, results);
            && Legal(rows, declared, answered) && Declared(rows) == {} && Answered(rows) == CallIds(calls)
            && UsableCalls(rows) && |rows| == |calls| && forall m | m in rows :: m.role == Tool
  {
    if calls != [] {
      var id, rest := calls[0].id, calls[1..];
      assert calls == [calls[0]] + rest;
      assert CallIds(calls) == {id} + CallIds(rest);
      assert id !in CallIds(rest);
      ResultsAnswerCalls(norm, rest, results[1..], declared, answered + {id});
      var rows := ResultRows(norm, calls, results);
      assert rows[1..] == ResultRows(norm, rest, results[1..]);
    }
  }

  /** The rows that a response adds to a transcript that does not end in a plain answer. */
  function Added(norm: Normalizer, outcome: Outcome): seq<Message>
  {
    match outcome
    case Tools(text, calls, results) => [AssistantRow(text, calls)] + ResultRows(norm, calls, results)
    case EmptyRetry => []
    case Truncated(text) => [AssistantRow(text, [])]
    case Continue(answer, injected) => (if answer.Some? then [AssistantRow(answer.value, [])] else []) + injected
    case ErrorThen(injected) => [AssistantRow(MODEL_ERROR_PLACEHOLDER, [])] + injected
    case BlankThen(injected) => [AssistantRow(EMPTY_FINAL_RESPONSE_MESSAGE, [])] + injected
    case Stop => []
  }

  lemma {:induction false} ValidCallsAll(calls: seq<ToolCall>)
    requires forall i | 0 <= i < |calls| :: ValidName(calls[i])
    ensures ValidCalls(calls) == calls
  {
    if calls != [] {
      ValidCallsAll(calls[1..]);
      assert calls == [calls[0]] + calls[1..];
    }
  }

  lemma ExchangeClosed(norm: Normalizer, known: seq<Message>, text: string, calls: seq<ToolCall>, results: seq<Content>)
    requires |calls| == |results| && UsableNewCalls(known, calls)
    ensures var rows := [AssistantRow(text, calls)] + ResultRows(norm, calls, results);
            Closed(rows) && Declared(rows) == CallIds(calls) && !PlainTail(rows)
  {
    var a, answers := AssistantRow(text, calls), ResultRows(norm, calls, results);
    var rows := [a] + answers;
    assert rows[1..] == answers;
    assert {} + CallIds(calls) == CallIds(calls);
    ResultsAnswerCalls(norm, calls, results, CallIds(calls), {});
    ValidCallsAll(calls);
    assert answers != [] && answers[|answers| - 1] in answers && rows[|rows| - 1] == answers[|answers| - 1];
  }

  lemma TailOf(a: seq<Message>, b: seq<Message>)
    ensures PlainTail(a + b) <==> if b == [] then PlainTail(a) else PlainTail(b)
  {
    if b == [] {
      assert a + b == a;
    }
  }

  lemma UserTail(rows: seq<Message>)
    requires AllUser(rows)
    ensures !PlainTail(rows)
  {
    if rows != [] {
      assert rows[|rows| - 1] in rows;
    }
  }

  /** A plain answer followed by injected user rows. */
  lemma AnswerClosed(answer: seq<string>, injected: seq<Message>)
    requires |answer| <= 1 && AllUser(injected)
    ensures var rows := (if answer == [] then [] else [AssistantRow(answer[0], [])]) + injected;
            Closed(rows) && Declared(rows) == {} && (injected != [] ==> !PlainTail(rows))
  {
    var head := if answer == [] then [] else [AssistantRow(answer[0], [])];
    UserRowsClosed(head + injected, {}, {});
    TailOf(head, injected);
    UserTail(injected);
  }

  /** After a transcript that does not end in a plain answer, a response only appends. */
  lemma ResponseAppends(norm: Normalizer, msgs: seq<Message>, outcome: Outcome)
    requires !PlainTail(msgs)
    ensures AfterResponse(norm, msgs, outcome) == msgs + Added(norm, outcome)
  {
    match outcome
    case Tools(text, calls, results) =>
      Assoc(msgs, [AssistantRow(text, calls)], ResultRows(norm, calls, results));
    case Continue(answer, injected) =>
      Assoc(msgs, if answer.Some? then [AssistantRow(answer.value, [])] else [], injected);
    case ErrorThen(injected) => Assoc(msgs, [AssistantRow(MODEL_ERROR_PLACEHOLDER, [])], injected);
    case BlankThen(injected) => Assoc(msgs, [AssistantRow(EMPTY_FINAL_RESPONSE_MESSAGE, [])], injected);
    case _ =>
  }

  lemma Assoc(a: seq<Message>, b: seq<Message>, c: seq<Message>)
    ensures a + b + c == a + (b + c)
  {
  }

  /** What a response adds is closed, calls no open id, and ends in a plain answer only when it was
      truncated. */
  lemma AddedClosed(norm: Normalizer, known: seq<Message>, outcome: Outcome)
    requires OutcomeOk(known, outcome)
    ensures Closed(Added(norm, outcome)) && Declared(Added(norm, outcome)) !! OpenIds(known)
    ensures !outcome.Truncated? ==> !PlainTail(Added(norm, outcome))
  {
    match outcome
    case Tools(text, calls, results) => ExchangeClosed(norm, known, text, calls, results);
    case Truncated(text) => AnswerClosed([text], []);
    case Continue(answer, injected) => AnswerClosed(if answer.Some? then [answer.value] else [], injected);
    case ErrorThen(injected) => AnswerClosed([MODEL_ERROR_PLACEHOLDER], injected);
    case BlankThen(injected) => AnswerClosed([EMPTY_FINAL_RESPONSE_MESSAGE], injected);
    case _ => AnswerClosed([], []);
  }

  // ----- every reachable state is sound

  /** A transcript that is handed to the runner: usable history up to `boundary`, then rows that call
      no tool, and no plain answer at the end. */
  ghost predicate Startable(messages: seq<Message>, boundary: nat) {
    && boundary <= |messages|
    && NothingLingers(messages[..boundary]) && UnansweredOnce(messages[..boundary])
    && (forall m | m in messages[boundary..] :: m.role != Tool && (m.role == Assistant ==> m.calls == []))
    && !PlainTail(messages)
  }

  function Start(messages: seq<Message>, boundary: nat): Reference {
    Reference(messages, [], 0, boundary, None)
  }

  lemma StartSound(messages: seq<Message>, boundary: nat)
    requires Startable(messages, boundary)
    ensures Sound(Start(messages, boundary))
  {
    var r := Start(messages, boundary);
    assert Known(r) == messages[..boundary];
    UserRowsClosed(Delta(r), {}, {});
  }

  lemma ReadySound(setup: Setup, r: Reference, injected: seq<Message>)
    requires Sound(r) && AllUser(injected)
    ensures Sound(Ready(setup, r, injected)) && !PlainTail(Ready(setup, r, injected).messages)
  {
    var rows := ReadyRows(setup, r, injected);
    ReadyParts(setup, r, injected);
    UserRowsClosed(rows, {}, {});
    ClosedAppend(Delta(r), rows);
    TailOf(r.messages, rows);
    UserTail(rows);
  }

  /** The rows that a snapshot adds. */
  function ReadyRows(setup: Setup, r: Reference, injected: seq<Message>): seq<Message> {
    if injected != [] then injected
    else if r.pending.Some? then [RecoveryRow(setup.prompt, r.pending.value)] else []
  }

  lemma ReadyParts(setup: Setup, r: Reference, injected: seq<Message>)
    requires InBounds(r)
    ensures var (r', rows) := (Ready(setup, r, injected), ReadyRows(setup, r, injected));
            && r'.messages == r.messages + rows && r'.pending.None?
            && Known(r') == Known(r) && Delta(r') == Delta(r) + rows
  {
    var r' := Ready(setup, r, injected);
    assert r'.messages[r.cut..r.sent] == r.messages[r.cut..r.sent];
  }

  /** Rows that neither call a tool nor answer a call. */
  lemma QuietRows(rows: seq<Message>)
    requires forall m | m in rows :: m.role != Tool && m.role != Assistant
    ensures NothingLingers(rows) && UnansweredOnce(rows) && Declared(rows) == {} && OpenIds(rows) == {}
  {
    UserRowsClosed(rows, {}, {});
    StrippedDeclares(rows);
  }

  lemma SummaryRowsQuiet(setup: Setup, summary: string, delta: seq<Message>)
    requires InstructionsOnly(setup)
    ensures forall m | m in setup.builder(summary) + Continuation(delta) :: m.role != Tool && m.role != Assistant
  {
  }

  lemma CompactedSound(setup: Setup, r: Reference, summary: string)
    requires Sound(r) && InstructionsOnly(setup)
    ensures Sound(Compacted(setup, r, summary))
    ensures Known(Compacted(setup, r, summary)) == Compacted(setup, r, summary).base
  {
    var base := setup.builder(summary) + Continuation(Delta(r));
    SummaryRowsQuiet(setup, summary, Delta(r));
    QuietRows(base);
    var r' := Compacted(setup, r, summary);
    assert r'.messages[r'.cut..r'.sent] == [] && base + [] == base;
  }

  lemma RespondedParts(setup: Setup, r: Reference, outcome: Outcome)
    requires InBounds(r) && !PlainTail(r.messages)
    ensures var r' := Responded(setup, r, outcome);
            && r'.messages == r.messages + Added(setup.norm, outcome)
            && Known(r') == Known(r) + Delta(r) && Delta(r') == Added(setup.norm, outcome)
            && Whole(r) == Known(r) + Delta(r)
  {
    ResponseAppends(setup.norm, r.messages, outcome);
    var r' := Responded(setup, r, outcome);
    assert r'.messages[r.cut..r'.sent] == r.messages[r.cut..];
    assert r.messages[r.cut..] == r.messages[r.cut..r.sent] + r.messages[r.sent..];
  }

  /** What the model knows after it accepted the delta. */
  lemma AcceptedSound(r: Reference)
    requires Sound(r)
    ensures NothingLingers(Known(r) + Delta(r)) && UnansweredOnce(Known(r) + Delta(r))
  {
    ClosedStripped(Delta(r), {}, {});
    NothingLingersSplit(Known(r), Delta(r));
    UnansweredOnceGrows(Known(r), Delta(r));
  }

  lemma RespondedSound(setup: Setup, r: Reference, outcome: Outcome)
    requires Sound(r) && !PlainTail(r.messages) && OutcomeOk(Whole(r), outcome)
    ensures Sound(Responded(setup, r, outcome))
  {
    AddedClosed(setup.norm, Whole(r), outcome);
    RespondedParts(setup, r, outcome);
    AcceptedSound(r);
    TailOf(r.messages, Added(setup.norm, outcome));
  }

  // ----- the incremental runner

  /** H is what the model knows, raw or prepared. */
  ghost predicate Accepts(setup: Setup, accepted: seq<Message>, r: Reference)
    requires InBounds(r)
  {
    accepted == Known(r) || accepted == Prepared(setup.norm, Known(r))
  }

  lemma KnownAndDelta(r: Reference)
    requires InBounds(r)
    ensures Whole(r) == Known(r) + Delta(r)
  {
    assert r.messages[r.cut..] == r.messages[r.cut..r.sent] + Delta(r);
  }

  /** Preparing H followed by the delta rebuilds the whole request. */
  lemma RequestIsRebuild(setup: Setup, accepted: seq<Message>, r: Reference)
    requires Idempotent(setup.norm) && Sound(r) && Accepts(setup, accepted, r)
    ensures Prepared(setup.norm, accepted + Delta(r)) == Rebuild(setup, r)
  {
    KnownAndDelta(r);
    SoundIsIndependent(r);
    IncrementalRefinesRebuild(setup.norm, Known(r), Delta(r));
  }

  /** Replacing H by a summary keeps every exchange of the delta: dropping and filling in do nothing to
      it, so the repaired request is the summary rows followed by the delta without placeholders. */
  lemma CompactionKeepsPairs(setup: Setup, r: Reference, summary: string)
    requires Sound(r) && InstructionsOnly(setup)
    ensures var r' := Compacted(setup, r, summary);
            && DropOrphans(Stripped(Delta(r)), {}, {}) == Stripped(Delta(r))
            && Backfilled(Stripped(Delta(r))) == Stripped(Delta(r))
            && Paired(Whole(r')) == r'.base + Stripped(Delta(r))
  {
    var r' := Compacted(setup, r, summary);
    CompactedSound(setup, r, summary);
    assert Whole(r') == r'.base + Delta(r);
    SummaryRowsQuiet(setup, summary, Delta(r));
    QuietRows(r'.base);
    QuietStays(r'.base);
    ClosedUntouched(Delta(r));
    PairedBehindOthers(r'.base, Delta(r));
  }

  lemma QuietStays(rows: seq<Message>)
    requires forall m | m in rows :: m.role != Tool && m.role != Assistant
    ensures Paired(rows) == rows
  {
    UserRowsClosed(rows, {}, {});
    ClosedUntouched(rows);
    CleanIsStripped(rows);
  }

  /** `prepare_request` on the main path: H and the delta, or a summary and the delta, make the
      rebuilt request. */
  method PrepareRequest(setup: Setup, compaction: ContextCompactionState, transcript: seq<Message>,
                        pressure: Pressure, ghost r: Reference)
    returns (prepared: Option<seq<Message>>)
    requires Idempotent(setup.norm) && InstructionsOnly(setup)
    requires Sound(r) && r.messages == transcript && r.sent == compaction.rawAcceptedBoundary
    requires Accepts(setup, compaction.acceptedMessages, r)
    modifies compaction
    ensures compaction.acceptedMessages == old(compaction.acceptedMessages)
    ensures compaction.rawAcceptedBoundary == old(compaction.rawAcceptedBoundary)
    ensures var o := Requested(setup, r, pressure);
            prepared == if o.None? then None else Some(Rebuild(setup, o.value))
  {
    match pressure
    case Relaxed =>
      var rows := RelaxedRequest(setup, compaction, transcript, r);
      prepared := Some(rows);
    case Pressured(summary, fits) =>
      prepared := PressuredRequest(setup, compaction, transcript, summary, fits, r);
  }

  method RelaxedRequest(setup: Setup, compaction: ContextCompactionState, transcript: seq<Message>, ghost r: Reference)
    returns (prepared: seq<Message>)
    requires Idempotent(setup.norm) && Sound(r) && r.messages == transcript && r.sent == compaction.rawAcceptedBoundary
    requires Accepts(setup, compaction.acceptedMessages, r)
    ensures prepared == Rebuild(setup, r)
  {
    var requestMessages := compaction.RequestMessages(transcript);
    RequestIsRebuild(setup, compaction.acceptedMessages, r);
    prepared := PrepareMessagesForModel(setup.norm, requestMessages);
  }

  /** A request over budget: H gives way to a summary of it. */
  method PressuredRequest(setup: Setup, compaction: ContextCompactionState, transcript: seq<Message>,
                          summary: string, fits: bool, ghost r: Reference)
    returns (prepared: Option<seq<Message>>)
    requires InBounds(r) && r.messages == transcript && r.sent == compaction.rawAcceptedBoundary
    modifies compaction
    ensures compaction.acceptedMessages == old(compaction.acceptedMessages)
    ensures compaction.rawAcceptedBoundary == old(compaction.rawAcceptedBoundary)
    ensures prepared == if summary == "" || !fits then None else Some(Rebuild(setup, Compacted(setup, r, summary)))
  {
    var requestMessages := compaction.RequestMessages(transcript);
    HeadAndDelta(compaction.acceptedMessages, Delta(r));
    prepared := compaction.CompactRequestHistory(setup.norm, setup.builder, requestMessages, summary, fits);
    CompactedRebuild(setup, r, summary);
  }

  lemma HeadAndDelta(head: seq<Message>, delta: seq<Message>)
    ensures (head + delta)[..|head|] == head && (head + delta)[|head|..] == delta
  {
  }

  lemma CompactedRebuild(setup: Setup, r: Reference, summary: string)
    requires InBounds(r)
    ensures Rebuild(setup, Compacted(setup, r, summary))
         == Prepared(setup.norm, setup.builder(summary) + Continuation(Delta(r)) + Delta(r))
  {
  }

  /** The incremental runner holds the state of the reference runner. */
  ghost predicate Mirrors(setup: Setup, compaction: ContextCompactionState, transcript: seq<Message>,
                          pending: Option<string>, r: Reference)
    reads compaction
  {
    && InBounds(r) && r.messages == transcript && r.pending == pending
    && r.sent == compaction.rawAcceptedBoundary && Accepts(setup, compaction.acceptedMessages, r)
  }

  lemma NextSound(setup: Setup, r: Reference, round: Round)
    requires InstructionsOnly(setup) && Sound(r)
    requires RoundOk(setup, r, round)
    ensures Next(setup, r, round).Some? ==> Sound(Next(setup, r, round).value)
  {
    var ready := Ready(setup, r, round.injected);
    ReadySound(setup, r, round.injected);
    var o := Requested(setup, ready, round.pressure);
    if o.Some? {
      if round.pressure.Pressured? {
        CompactedSound(setup, ready, round.pressure.summary);
      }
      RespondedSound(setup, o.value, round.outcome);
    }
  }

  /** Accepting the request that was sent mirrors the reference state after the response. */
  lemma AcceptedMirrors(setup: Setup, requested: Reference, outcome: Outcome)
    requires InBounds(requested) && !PlainTail(requested.messages)
    ensures var next := Responded(setup, requested, outcome);
            && InBounds(next) && next.sent == |requested.messages|
            && Prepared(setup.norm, Known(next)) == Rebuild(setup, requested)
  {
    RespondedParts(setup, requested, outcome);
  }

  /** One iteration: snapshot, request, response. */
  method OneRound(setup: Setup, compaction: ContextCompactionState, messages: seq<Message>, segment: Option<string>,
                  round: Round, ghost r: Reference)
    returns (sent: Option<seq<Message>>, transcript: seq<Message>, pending: Option<string>)
    requires Idempotent(setup.norm) && InstructionsOnly(setup)
    requires Sound(r) && Mirrors(setup, compaction, messages, segment, r)
    requires RoundOk(setup, r, round)
    modifies compaction
    ensures sent == Sent(setup, r, round)
    ensures sent.Some? ==> Mirrors(setup, compaction, transcript, pending, Next(setup, r, round).value)
  {
    // The inbox snapshot decides whether a truncated answer is continued or interrupted.
    transcript := BeforeRequest(setup, messages, segment, round.injected);
    pending := None;
    ghost var ready := Ready(setup, r, round.injected);
    ReadySound(setup, r, round.injected);
    assert Known(ready) == Known(r);
    sent := PrepareRequest(setup, compaction, transcript, round.pressure, ready);
    if sent.None? {
      return;
    }
    ghost var requested := Requested(setup, ready, round.pressure).value;
    compaction.AcceptRequest(sent.value, |transcript|);
    transcript := AfterResponse(setup.norm, transcript, round.outcome);
    if round.outcome.Truncated? {
      pending := Some(round.outcome.text);
    }
    AcceptedMirrors(setup, requested, round.outcome);
  }

  /** One round taken off a run. */
  lemma RoundStep(setup: Setup, r: Reference, rounds: seq<Round>, i: nat, requests: seq<seq<Message>>)
    requires InBounds(r) && i < |rounds|
    ensures var (next, sent) := (Next(setup, r, rounds[i]), Sent(setup, r, rounds[i]));
            var all := requests + ReferenceRequests(setup, r, rounds[i..]);
            if next.None? then sent.None? && all == requests
            else
              && sent.Some?
              && all == if rounds[i].outcome.Stop? then requests + [sent.value]
                        else requests + [sent.value] + ReferenceRequests(setup, next.value, rounds[i + 1..])
  {
    var rest := rounds[i..];
    assert rest[0] == rounds[i] && rest[1..] == rounds[i + 1..];
  }

  /** The main loop. `rounds` is what the outside world does; the requests are those of the reference
      runner, although each is built from the accepted rows and the unsent rows only. */
  method RunCore(setup: Setup, messages: seq<Message>, historyBoundary: nat, rounds: seq<Round>)
    returns (requests: seq<seq<Message>>)
    requires Idempotent(setup.norm) && InstructionsOnly(setup)
    requires Startable(messages, historyBoundary)
    requires RunOk(setup, Start(messages, historyBoundary), rounds)
    ensures requests == ReferenceRequests(setup, Start(messages, historyBoundary), rounds)
  {
    requests := [];
    var transcript, pending: Option<string> := messages, None;
    var compaction := new ContextCompactionState(messages, historyBoundary, None);
    ghost var r := Start(messages, historyBoundary);
    ghost var all := ReferenceRequests(setup, r, rounds);
    StartSound(messages, historyBoundary);
    assert Known(r) == messages[..historyBoundary];
    assert rounds[0..] == rounds;
    for i := 0 to |rounds|
      invariant Sound(r) && Mirrors(setup, compaction, transcript, pending, r)
      invariant StateAt(setup, Start(messages, historyBoundary), rounds, i) == Some(r)
      invariant requests + ReferenceRequests(setup, r, rounds[i..]) == all
    {
      RoundStep(setup, r, rounds, i, requests);
      assert RoundOkAt(setup, Start(messages, historyBoundary), rounds, i);
      NextSound(setup, r, rounds[i]);
      ghost var next := Next(setup, r, rounds[i]);
      var sent;
      sent, transcript, pending := OneRound(setup, compaction, transcript, pending, rounds[i], r);
      if sent.None? {
        return;
      }
      requests := requests + [sent.value];
      if rounds[i].outcome.Stop? {
        return;
      }
      r := next.value;
    }
  }

  // ----- every request of every run

  /** The state whose request is built in round `k` of a run; `None` when the run ended before. */
  function AtRequest(setup: Setup, r: Reference, rounds: seq<Round>, k: nat): (o: Option<Reference>)
    requires InBounds(r) && k < |rounds|
    ensures o.Some? ==> InBounds(o.value)
  {
    var before := StateAt(setup, r, rounds, k);
    if before.None? then None else Some(Ready(setup, before.value, rounds[k].injected))
  }

  lemma {:induction false} EveryStateIsSound(setup: Setup, r: Reference, rounds: seq<Round>, k: nat)
    requires InstructionsOnly(setup) && Sound(r) && RunOk(setup, r, rounds)
    requires k <= |rounds| && StateAt(setup, r, rounds, k).Some?
    ensures Sound(StateAt(setup, r, rounds, k).value)
  {
    if k > 0 {
      EveryStateIsSound(setup, r, rounds, k - 1);
      assert RoundOkAt(setup, r, rounds, k - 1);
      NextSound(setup, StateAt(setup, r, rounds, k - 1).value, rounds[k - 1]);
    }
  }

  lemma EveryRequestIsSound(setup: Setup, r: Reference, rounds: seq<Round>, k: nat)
    requires InstructionsOnly(setup) && Sound(r) && RunOk(setup, r, rounds)
    requires k < |rounds| && AtRequest(setup, r, rounds, k).Some?
    ensures Sound(AtRequest(setup, r, rounds, k).value)
  {
    EveryStateIsSound(setup, r, rounds, k);
    assert RoundOkAt(setup, r, rounds, k);
    ReadySound(setup, StateAt(setup, r, rounds, k).value, rounds[k].injected);
  }

  /** In every run and at every request: the rows after the accepted boundary hold each tool result
      together with its call, so a summary in place of H leaves nothing to drop or to fill in. */
  lemma EveryCompactionKeepsPairs(setup: Setup, messages: seq<Message>, boundary: nat, rounds: seq<Round>,
                                  k: nat, summary: string)
    requires InstructionsOnly(setup) && Startable(messages, boundary)
    requires RunOk(setup, Start(messages, boundary), rounds)
    requires k < |rounds| && AtRequest(setup, Start(messages, boundary), rounds, k).Some?
    ensures var r := AtRequest(setup, Start(messages, boundary), rounds, k).value;
            var after := Compacted(setup, r, summary);
            && Closed(Delta(r))
            && DropOrphans(Stripped(Delta(r)), {}, {}) == Stripped(Delta(r))
            && Backfilled(Stripped(Delta(r))) == Stripped(Delta(r))
            && Paired(Whole(after)) == after.base + Stripped(Delta(r))
  {
    StartSound(messages, boundary);
    EveryRequestIsSound(setup, Start(messages, boundary), rounds, k);
    CompactionKeepsPairs(setup, AtRequest(setup, Start(messages, boundary), rounds, k).value, summary);
  }
}
