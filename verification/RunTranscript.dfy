/** What a run writes into its raw transcript and what its requests show of it, by positions and fields. */
module RunTranscript {
  import opened Transcript
  import opened Repair
  import opened Pairing
  import opened Requests
  import opened RepairShows
  import opened ResultsShown
  import opened CompactionState
  import opened RunnerTurn

  predicate PlainAtEnd(msgs: seq<Message>) {
    msgs != [] && msgs[|msgs| - 1].role == Assistant && msgs[|msgs| - 1].calls == []
  }

  function AssistantText(text: string): Message {
    Message(Assistant, Str(text), [], "", "", false, NO_META)
  }

  function IdOf(c: ToolCall): string {
    if c.Call? then c.id else ""
  }

  /** The text of the name of a call: that of its function entry, or its own without one. */
  function NameOf(c: ToolCall): string {
    match c
    case Call(_, Some(Named(text)), _) => text
    case Call(_, None, Named(text)) => text
    case _ => ""
  }

  /** From position `n` on stands an assistant row with `text` and `calls`, and behind it the result of call `i`
      under the id and name of call `i`, for each of them. */
  ghost predicate ExchangeAt(norm: Normalizer, msgs: seq<Message>, n: nat, text: string, calls: seq<ToolCall>,
                             results: seq<Content>) {
    && n + 1 + (if |calls| <= |results| then |calls| else |results|) <= |msgs|
    && msgs[n] == Message(Assistant, Str(text), calls, "", "", false, NO_META)
    && forall i | 0 <= i < |calls| && i < |results| ::
         msgs[n + 1 + i] == Message(Tool, norm(OfCall(IdOf(calls[i])), NameOf(calls[i]), results[i]), [],
                                    IdOf(calls[i]), NameOf(calls[i]), false, NO_META)
  }

  /** What a response makes of the transcript it answers. */
  ghost predicate Follows(norm: Normalizer, before: seq<Message>, after: seq<Message>, outcome: Outcome) {
    match outcome
    case Tools(text, calls, results) =>
      && |after| == |before| + 1 + (if |calls| <= |results| then |calls| else |results|)
      && after[..|before|] == before && ExchangeAt(norm, after, |before|, text, calls, results)
    case EmptyRetry => after == before
    case Truncated(text) => after == before + [AssistantText(text)]
    case Continue(None, injected) => after == before + injected
    case Continue(Some(answer), injected) => after == before + [AssistantText(answer)] + injected
    case ErrorThen(injected) =>
      after == (if PlainAtEnd(before) then before else before + [AssistantText(MODEL_ERROR_PLACEHOLDER)]) + injected
    case BlankThen(injected) =>
      var fallback := Str(EMPTY_FINAL_RESPONSE_MESSAGE);
      if PlainAtEnd(before) && before[|before| - 1].content == fallback then after == before + injected
      else after == (if PlainAtEnd(before) then before[..|before| - 1] else before)
                    + [AssistantText(EMPTY_FINAL_RESPONSE_MESSAGE)] + injected
    case Stop => after == before
  }

  /** What the inbox snapshot makes of the transcript: injected rows, or the prompt that continues a truncated answer
      from its last characters, or nothing. */
  ghost predicate Snapshot(setup: Setup, before: seq<Message>, after: seq<Message>, pending: Option<string>,
                           injected: seq<Message>) {
    if injected != [] then after == before + injected
    else if pending.None? then after == before
    else
      var text := pending.value;
      var tail := text[if |text| > 64 then |text| - 64 else 0..];
      after == before + [Message(User, Str(setup.prompt(tail)), [], "", "", false, NO_META)]
  }

  lemma {:induction false} ResultRowAt(norm: Normalizer, calls: seq<ToolCall>, results: seq<Content>)
    ensures var rows := ResultRows(norm, calls, results);
            && |rows| == (if |calls| <= |results| then |calls| else |results|)
            && forall i | 0 <= i < |rows| ::
                 rows[i] == Message(Tool, norm(OfCall(IdOf(calls[i])), NameOf(calls[i]), results[i]), [],
                                    IdOf(calls[i]), NameOf(calls[i]), false, NO_META)
  {
    if calls != [] && results != [] {
      ResultRowAt(norm, calls[1..], results[1..]);
      var rows := ResultRows(norm, calls, results);
      assert rows[1..] == ResultRows(norm, calls[1..], results[1..]);
      assert CallName(calls[0]) == NameOf(calls[0]);
    }
  }

  lemma ToolsFollow(norm: Normalizer, before: seq<Message>, text: string, calls: seq<ToolCall>, results: seq<Content>)
    ensures Follows(norm, before, AfterResponse(norm, before, Tools(text, calls, results)), Tools(text, calls, results))
  {
    ResultRowAt(norm, calls, results);
    var after := AfterResponse(norm, before, Tools(text, calls, results));
    assert after == before + [AssistantRow(text, calls)] + ResultRows(norm, calls, results);
    assert after[|before|] == AssistantRow(text, calls);
  }

  lemma ResponseFollows(norm: Normalizer, before: seq<Message>, outcome: Outcome)
    ensures Follows(norm, before, AfterResponse(norm, before, outcome), outcome)
  {
    match outcome
    case Tools(text, calls, results) => ToolsFollow(norm, before, text, calls, results);
    case Continue(None, injected) => assert before + [] == before;
    case _ =>
  }

  lemma SnapshotIs(setup: Setup, r: Reference, injected: seq<Message>)
    requires InBounds(r)
    ensures Snapshot(setup, r.messages, Ready(setup, r, injected).messages, r.pending, injected)
  {
    if injected == [] && r.pending.Some? {
      var text := r.pending.value;
      assert text[0..] == text;
    }
  }

  /** For every state and every round: the transcript grows by the snapshot and then by what the response says, and a
      truncated text is what waits for a continuation. */
  lemma TranscriptGrows(setup: Setup, r: Reference, round: Round) returns (ready: seq<Message>)
    requires InBounds(r) && Next(setup, r, round).Some?
    ensures var n := Next(setup, r, round).value;
            && Snapshot(setup, r.messages, ready, r.pending, round.injected)
            && Follows(setup.norm, ready, n.messages, round.outcome) && n.sent == |ready|
            && n.pending == if round.outcome.Truncated? then Some(round.outcome.text) else None
  {
    ready := Ready(setup, r, round.injected).messages;
    SnapshotIs(setup, r, round.injected);
    ResponseFollows(setup.norm, ready, round.outcome);
  }

  /** So at every point of every run. */
  lemma RunGrows(setup: Setup, r: Reference, rounds: seq<Round>, k: nat, x: Reference, y: Reference)
    returns (ready: seq<Message>)
    requires InBounds(r) && k < |rounds|
    requires StateAt(setup, r, rounds, k) == Some(x) && StateAt(setup, r, rounds, k + 1) == Some(y)
    ensures Snapshot(setup, x.messages, ready, x.pending, rounds[k].injected)
    ensures Follows(setup.norm, ready, y.messages, rounds[k].outcome) && y.sent == |ready|
    ensures y.pending == if rounds[k].outcome.Truncated? then Some(rounds[k].outcome.text) else None
  {
    ready := TranscriptGrows(setup, x, rounds[k]);
  }

  // ----- what the requests cover

  /** The rows that stand for the history behind a summary, in front of the rows `delta` that stay. */
  ghost predicate Replaces(setup: Setup, rows: seq<Message>, summary: string, delta: seq<Message>) {
    rows == setup.builder(summary)
            + if exists i :: 0 <= i < |delta| && delta[i].role == User then []
              else [Message(User, Str(SUMMARY_CONTINUATION_TEXT), [], "", "", false, NO_META)]
  }

  /** One round: a relaxed request covers what the state covers, with the rows of the snapshot; a summarized one covers
      the summary and the rows behind what was sent before. The next state covers the same. */
  lemma RequestCovers(setup: Setup, r: Reference, round: Round, ready: seq<Message>)
    requires InBounds(r) && Sent(setup, r, round).Some? && ready == Ready(setup, r, round.injected).messages
    ensures Next(setup, r, round).Some? && r.sent <= |ready| && r.cut <= |ready|
    ensures var (request, n) := (Sent(setup, r, round).value, Next(setup, r, round).value);
            && request == Prepared(setup.norm, n.base + ready[n.cut..])
            && match round.pressure
               case Relaxed => n.base == r.base && n.cut == r.cut
               case Pressured(summary, fits) =>
                 summary != "" && fits && n.cut == r.sent && Replaces(setup, n.base, summary, ready[r.sent..])
  {
    match round.pressure
    case Relaxed =>
    case Pressured(summary, _) => ContinuationRows(ready[r.sent..]);
  }

  /** A request is made exactly if it needs no summary, or if there is one that makes it fit. */
  lemma RequestIsMadeIff(setup: Setup, r: Reference, round: Round)
    requires InBounds(r)
    ensures Sent(setup, r, round).Some?
       <==> round.pressure.Relaxed? || (round.pressure.summary != "" && round.pressure.fits)
    ensures Sent(setup, r, round).Some? <==> Next(setup, r, round).Some?
  {
  }

  lemma ContinuationRows(delta: seq<Message>)
    ensures Continuation(delta)
         == if exists i :: 0 <= i < |delta| && delta[i].role == User then []
            else [Message(User, Str(SUMMARY_CONTINUATION_TEXT), [], "", "", false, NO_META)]
  {
    if m :| m in delta && m.role == User {
      var i :| 0 <= i < |delta| && delta[i] == m;
    }
  }

  /** Without a summary every request of a run is the preparation of the whole transcript. */
  lemma {:induction false} NothingForgotten(setup: Setup, r: Reference, rounds: seq<Round>, k: nat, x: Reference)
    requires InBounds(r) && r.base == [] && r.cut == 0 && k <= |rounds| && StateAt(setup, r, rounds, k) == Some(x)
    requires forall j | 0 <= j < k :: rounds[j].pressure.Relaxed?
    ensures x.base == [] && x.cut == 0
  {
    if k > 0 {
      var before := StateAt(setup, r, rounds, k - 1).value;
      NothingForgotten(setup, r, rounds, k - 1, before);
      RequestCovers(setup, before, rounds[k - 1], Ready(setup, before, rounds[k - 1].injected).messages);
    }
  }

  lemma EveryRelaxedRequestIsWhole(setup: Setup, messages: seq<Message>, boundary: nat, rounds: seq<Round>, k: nat,
                                   x: Reference)
    requires boundary <= |messages| && k < |rounds|
    requires StateAt(setup, Start(messages, boundary), rounds, k) == Some(x)
    requires forall j | 0 <= j <= k :: rounds[j].pressure.Relaxed?
    ensures var ready := Ready(setup, x, rounds[k].injected).messages;
            && Snapshot(setup, x.messages, ready, x.pending, rounds[k].injected)
            && Sent(setup, x, rounds[k]) == Some(Prepared(setup.norm, ready))
  {
    NothingForgotten(setup, Start(messages, boundary), rounds, k, x);
    SnapshotIs(setup, x, rounds[k].injected);
    var ready := Ready(setup, x, rounds[k].injected).messages;
    assert [] + ready[0..] == ready;
  }

  /** The state `y` knows the summary that round `j` made in state `x`, and the rows behind what was sent before it. */
  ghost predicate KnowsSummary(setup: Setup, x: Reference, round: Round, y: Reference)
    requires InBounds(x) && round.pressure.Pressured?
  {
    var ready := Ready(setup, x, round.injected).messages;
    y.cut == x.sent <= |ready| && Replaces(setup, y.base, round.pressure.summary, ready[x.sent..])
  }

  lemma SummaryIsMade(setup: Setup, x: Reference, round: Round)
    requires InBounds(x) && round.pressure.Pressured? && Next(setup, x, round).Some?
    ensures KnowsSummary(setup, x, round, Next(setup, x, round).value)
  {
    RequestCovers(setup, x, round, Ready(setup, x, round.injected).messages);
  }

  lemma RelaxedKnowsTheSame(setup: Setup, x: Reference, round: Round)
    requires InBounds(x) && round.pressure.Relaxed? && Next(setup, x, round).Some?
    ensures Next(setup, x, round).value.base == x.base && Next(setup, x, round).value.cut == x.cut
  {
  }

  ghost predicate KnowsAt(setup: Setup, r: Reference, rounds: seq<Round>, i: nat, x: Reference, round: Round)
    requires InBounds(r) && InBounds(x) && i <= |rounds| && round.pressure.Pressured?
  {
    var o := StateAt(setup, r, rounds, i);
    o.Some? ==> KnowsSummary(setup, x, round, o.value)
  }

  ghost predicate StillKnows(setup: Setup, r: Reference, rounds: seq<Round>, i: nat, x: Reference, round: Round)
    requires InBounds(r) && InBounds(x) && i < |rounds| && round.pressure.Pressured?
  {
    KnowsAt(setup, r, rounds, i, x, round) ==> KnowsAt(setup, r, rounds, i + 1, x, round)
  }

  lemma {:induction false} StillKnown(setup: Setup, r: Reference, rounds: seq<Round>, i: nat, x: Reference,
                                      round: Round)
    requires InBounds(r) && InBounds(x) && i < |rounds| && round.pressure.Pressured? && rounds[i].pressure.Relaxed?
    ensures StillKnows(setup, r, rounds, i, x, round)
  {
    var o := StateAt(setup, r, rounds, i);
    if o.Some? && StateAt(setup, r, rounds, i + 1).Some? {
      RelaxedKnowsTheSame(setup, o.value, rounds[i]);
    }
  }

  lemma {:induction false} KnownOnward(setup: Setup, r: Reference, rounds: seq<Round>, j: nat, k: nat, x: Reference,
                                       round: Round)
    requires InBounds(r) && InBounds(x) && j <= k <= |rounds| && round.pressure.Pressured?
    requires KnowsAt(setup, r, rounds, j, x, round)
    requires forall i | j <= i < k :: StillKnows(setup, r, rounds, i, x, round)
    ensures KnowsAt(setup, r, rounds, k, x, round)
  {
    if j < k {
      KnownOnward(setup, r, rounds, j, k - 1, x, round);
      assert StillKnows(setup, r, rounds, k - 1, x, round);
    }
  }

  lemma {:induction false} KnownAtFirst(setup: Setup, r: Reference, rounds: seq<Round>, j: nat, x: Reference)
    requires InBounds(r) && InBounds(x) && j < |rounds| && rounds[j].pressure.Pressured?
    requires StateAt(setup, r, rounds, j) == Some(x)
    ensures KnowsAt(setup, r, rounds, j + 1, x, rounds[j])
  {
    if StateAt(setup, r, rounds, j + 1).Some? {
      SummaryIsMade(setup, x, rounds[j]);
    }
  }

  /** After a summary, and until the next one, every state covers the summary rows and the rows behind what was sent
      before it. */
  lemma {:induction false} SummaryStands(setup: Setup, r: Reference, rounds: seq<Round>, j: nat, x: Reference, k: nat)
    requires InBounds(r) && InBounds(x) && j < k <= |rounds| && rounds[j].pressure.Pressured?
    requires StateAt(setup, r, rounds, j) == Some(x)
    requires forall i | j < i < k :: rounds[i].pressure.Relaxed?
    ensures KnowsAt(setup, r, rounds, k, x, rounds[j])
  {
    KnownAtFirst(setup, r, rounds, j, x);
    forall i | j + 1 <= i < k
      ensures StillKnows(setup, r, rounds, i, x, rounds[j])
    {
      StillKnown(setup, r, rounds, i, x, rounds[j]);
    }
    KnownOnward(setup, r, rounds, j + 1, k, x, rounds[j]);
  }

  // ----- results in the next request

  /** Calls with usable names and ids of their own, each with a result. */
  predicate Answerable(calls: seq<ToolCall>, results: seq<Content>) {
    && |calls| == |results|
    && (forall i | 0 <= i < |calls| :: NamedCall(calls[i]) && calls[i].id != "")
    && forall i, j | 0 <= i < j < |calls| :: calls[i].id != calls[j].id
  }

  lemma FirstOfItsId(norm: Normalizer, msgs: seq<Message>, n: nat, text: string, calls: seq<ToolCall>,
                     results: seq<Content>, i: nat)
    requires Answerable(calls, results) && i < |calls| && ExchangeAt(norm, msgs, n, text, calls, results)
    requires forall j | 0 <= j < n :: !ResultAt(msgs, j, calls[i].id)
    ensures FirstResult(msgs, n + 1 + i)
  {
    var id := calls[i].id;
    assert UsablyCalls(msgs[n], id);
    forall j | 0 <= j < n + 1 + i ensures !ResultAt(msgs, j, id) {
      if n < j {
        assert msgs[n + 1 + (j - n - 1)].toolId == calls[j - n - 1].id;
      }
    }
  }

  /** Wherever an exchange stands in a transcript: if no earlier result stands for the id of call `i`, the request
      has one row with this id, and it shows result `i`. */
  lemma {:induction false} ResultIsShown(norm: Normalizer, msgs: seq<Message>, n: nat, text: string,
                                         calls: seq<ToolCall>, results: seq<Content>, i: nat)
    requires Idempotent(norm) && Answerable(calls, results) && i < |calls|
    requires ExchangeAt(norm, msgs, n, text, calls, results)
    requires forall j | 0 <= j < n :: !ResultAt(msgs, j, calls[i].id)
    ensures Results(Prepared(norm, msgs), calls[i].id) == 1
    ensures forall m | m in Prepared(norm, msgs) && m.role == Tool && m.toolId == calls[i].id ::
              m.name == NameOf(calls[i]) && m.content == norm(OfCall(calls[i].id), NameOf(calls[i]), results[i])
  {
    FirstOfItsId(norm, msgs, n, text, calls, results, i);
    FirstResultIsShown(norm, msgs, n + 1 + i);
    assert NameOf(calls[i]) != "";
  }

  /** If an earlier result stands for the id, the request shows that one and the new result is not in it. */
  lemma {:induction false} ReusedIdShowsTheFirstResult(norm: Normalizer, msgs: seq<Message>, n: nat, text: string,
                                                       calls: seq<ToolCall>, results: seq<Content>, i: nat, j: nat)
    returns (first: nat)
    requires Answerable(calls, results) && i < |calls| && ExchangeAt(norm, msgs, n, text, calls, results)
    requires j < n && ResultAt(msgs, j, calls[i].id)
    ensures first <= j && FirstResult(msgs, first) && Results(Prepared(norm, msgs), calls[i].id) == 1
    ensures forall m | m in Prepared(norm, msgs) && m.role == Tool && m.toolId == calls[i].id ::
              Shows(norm, m, msgs[first])
  {
    first := FirstResultOf(msgs, j);
    FirstResultIsShown(norm, msgs, first);
  }

  // ----- the same for the request of the next round

  /** Where the exchange of a round stands in what the next relaxed request covers; `x` is the state in between. */
  lemma ExchangeIsCovered(setup: Setup, r: Reference, round: Round, x: Reference, next: Round, ready: seq<Message>,
                          later: seq<Message>)
    requires InBounds(r) && InBounds(x) && Next(setup, r, round) == Some(x)
    requires round.outcome.Tools? && next.pressure.Relaxed?
    requires ready == Ready(setup, r, round.injected).messages && later == Ready(setup, x, next.injected).messages
    ensures x.cut <= |ready| <= |later| && later[..|ready|] == ready
    ensures Sent(setup, x, next) == Some(Prepared(setup.norm, x.base + later[x.cut..]))
    ensures ExchangeAt(setup.norm, x.base + later[x.cut..], |x.base + ready[x.cut..]|, round.outcome.text,
                       round.outcome.calls, round.outcome.results)
  {
    var o := round.outcome;
    ExchangeInTranscript(setup, r, round, x, next, ready, later);
    CutIsBehind(setup, r, round, x, ready);
    RelaxedIsWhole(setup, x, next, later);
    ExchangeMoves(setup.norm, x.base, later, x.cut, |ready|, o.text, o.calls, o.results);
  }

  lemma CutIsBehind(setup: Setup, r: Reference, round: Round, x: Reference, ready: seq<Message>)
    requires InBounds(r) && Next(setup, r, round) == Some(x) && ready == Ready(setup, r, round.injected).messages
    ensures x.cut <= |ready|
  {
    RequestCovers(setup, r, round, ready);
  }

  lemma RelaxedIsWhole(setup: Setup, x: Reference, next: Round, later: seq<Message>)
    requires InBounds(x) && next.pressure.Relaxed? && later == Ready(setup, x, next.injected).messages
    ensures x.cut <= |later| && Sent(setup, x, next) == Some(Prepared(setup.norm, x.base + later[x.cut..]))
  {
  }

  lemma SnapshotOnlyAppends(setup: Setup, r: Reference, injected: seq<Message>)
    requires InBounds(r)
    ensures var later := Ready(setup, r, injected).messages;
            |r.messages| <= |later| && later[..|r.messages|] == r.messages
  {
  }

  lemma FrontOfFront(a: seq<Message>, b: seq<Message>, c: seq<Message>)
    requires |a| <= |b| <= |c| && b[..|a|] == a && c[..|b|] == b
    ensures c[..|a|] == a
  {
    assert c[..|a|] == c[..|b|][..|a|];
  }

  lemma ExchangeInTranscript(setup: Setup, r: Reference, round: Round, x: Reference, next: Round, ready: seq<Message>,
                             later: seq<Message>)
    requires InBounds(r) && InBounds(x) && Next(setup, r, round) == Some(x) && round.outcome.Tools?
    requires ready == Ready(setup, r, round.injected).messages && later == Ready(setup, x, next.injected).messages
    ensures |ready| <= |later| && later[..|ready|] == ready
    ensures ExchangeAt(setup.norm, later, |ready|, round.outcome.text, round.outcome.calls, round.outcome.results)
  {
    var o := round.outcome;
    ToolsFollow(setup.norm, ready, o.text, o.calls, o.results);
    SnapshotOnlyAppends(setup, x, next.injected);
    FrontOfFront(ready, x.messages, later);
    ExchangeStays(setup.norm, x.messages, later, |ready|, o.text, o.calls, o.results);
  }

  lemma ExchangeStays(norm: Normalizer, msgs: seq<Message>, more: seq<Message>, n: nat, text: string,
                      calls: seq<ToolCall>, results: seq<Content>)
    requires |msgs| <= |more| && more[..|msgs|] == msgs && ExchangeAt(norm, msgs, n, text, calls, results)
    ensures ExchangeAt(norm, more, n, text, calls, results)
  {
    forall k | 0 <= k < |msgs| ensures more[k] == msgs[k] {
      assert more[..|msgs|][k] == more[k];
    }
  }

  lemma ExchangeMoves(norm: Normalizer, base: seq<Message>, msgs: seq<Message>, cut: nat, n: nat, text: string,
                      calls: seq<ToolCall>, results: seq<Content>)
    requires cut <= n && ExchangeAt(norm, msgs, n, text, calls, results)
    ensures ExchangeAt(norm, base + msgs[cut..], |base| + (n - cut), text, calls, results)
  {
    forall k | cut <= k < |msgs| ensures (base + msgs[cut..])[|base| + (k - cut)] == msgs[k] {
    }
  }

  /** In every run: the request behind a round with tool calls has one row for the id of call `i`, and it shows result
      `i` under the name of call `i`, if nothing that the request covers answered this id before. */
  lemma {:induction false} NextRequestShowsResults(setup: Setup, r: Reference, rounds: seq<Round>, k: nat,
                                                   x: Reference, y: Reference, i: nat)
    requires InBounds(r) && k + 1 < |rounds| && Idempotent(setup.norm)
    requires StateAt(setup, r, rounds, k) == Some(x) && StateAt(setup, r, rounds, k + 1) == Some(y)
    requires rounds[k].outcome.Tools? && rounds[k + 1].pressure.Relaxed?
    requires Answerable(rounds[k].outcome.calls, rounds[k].outcome.results) && i < |rounds[k].outcome.calls|
    requires var ready := Ready(setup, x, rounds[k].injected).messages;
             y.cut <= |ready| ==>
               var covered := y.base + ready[y.cut..];
               forall j | 0 <= j < |covered| :: !ResultAt(covered, j, rounds[k].outcome.calls[i].id)
    ensures Sent(setup, y, rounds[k + 1]).Some?
    ensures var (request, c) := (Sent(setup, y, rounds[k + 1]).value, rounds[k].outcome.calls[i]);
            && Results(request, c.id) == 1
            && forall m | m in request && m.role == Tool && m.toolId == c.id ::
                 m.name == NameOf(c) && m.content == setup.norm(OfCall(c.id), NameOf(c), rounds[k].outcome.results[i])
  {
    var o := rounds[k].outcome;
    var ready, later := Ready(setup, x, rounds[k].injected).messages, Ready(setup, y, rounds[k + 1].injected).messages;
    ExchangeIsCovered(setup, x, rounds[k], y, rounds[k + 1], ready, later);
    var covered, all := y.base + ready[y.cut..], y.base + later[y.cut..];
    forall j | 0 <= j < |covered| ensures !ResultAt(all, j, o.calls[i].id) {
      CoveredStays(y.base, ready, later, y.cut, j, o.calls[i].id);
    }
    ResultIsShown(setup.norm, all, |covered|, o.text, o.calls, o.results, i);
  }

  lemma CoveredStays(base: seq<Message>, ready: seq<Message>, later: seq<Message>, cut: nat, j: nat, id: string)
    requires cut <= |ready| <= |later| && later[..|ready|] == ready && j < |base + ready[cut..]|
    ensures ResultAt(base + later[cut..], j, id) <==> ResultAt(base + ready[cut..], j, id)
  {
    forall h | 0 <= h <= j ensures (base + later[cut..])[h] == (base + ready[cut..])[h] {
      if |base| <= h {
        assert later[..|ready|][cut + h - |base|] == ready[cut + h - |base|];
      }
    }
  }
}
