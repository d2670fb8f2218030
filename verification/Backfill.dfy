/** The pass that inserts synthetic results, with its index arithmetic. */
module Backfill {
  import opened Transcript
  import opened Repair
  import opened Pairing

  datatype Entry = Entry(at: nat, call: ToolCall)

  /** The calls with an id of one assistant row, and of a transcript that starts at index `base`. */
  function CallsOf(at: nat, calls: seq<ToolCall>): seq<Entry> {
    if calls == [] then []
    else (if calls[0].Call? && calls[0].id != "" then [Entry(at, calls[0])] else []) + CallsOf(at, calls[1..])
  }

  function AllCalls(msgs: seq<Message>, base: nat): seq<Entry> {
    if msgs == [] then []
    else (if msgs[0].role == Assistant then CallsOf(base, msgs[0].calls) else []) + AllCalls(msgs[1..], base + 1)
  }

  function Unanswered(entries: seq<Entry>, fulfilled: set<string>): seq<Entry> {
    if entries == [] then []
    else (if entries[0].call.Call? && entries[0].call.id !in fulfilled then [entries[0]] else [])
         + Unanswered(entries[1..], fulfilled)
  }

  lemma {:induction false} UnansweredSplit(a: seq<Entry>, b: seq<Entry>, fulfilled: set<string>)
    ensures Unanswered(a + b, fulfilled) == Unanswered(a, fulfilled) + Unanswered(b, fulfilled)
  {
    if a == [] {
      assert a + b == b;
    } else {
      assert (a + b)[1..] == a[1..] + b;
      UnansweredSplit(a[1..], b, fulfilled);
    }
  }

  lemma {:induction false} AllCallsSplit(a: seq<Message>, b: seq<Message>, base: nat)
    ensures AllCalls(a + b, base) == AllCalls(a, base) + AllCalls(b, base + |a|)
  {
    if a == [] {
      assert a + b == b;
    } else {
      assert (a + b)[1..] == a[1..] + b;
      AllCallsSplit(a[1..], b, base + 1);
    }
  }

  /** The unanswered calls that are left of one assistant row, with the synthetic rows they need. */
  lemma {:induction false} NextCall(at: nat, calls: seq<ToolCall>, fulfilled: set<string>) returns (rest: seq<ToolCall>)
    requires Unanswered(CallsOf(at, calls), fulfilled) != []
    ensures var entry := Unanswered(CallsOf(at, calls), fulfilled)[0];
            && entry.at == at && entry.call.Call?
            && Unanswered(CallsOf(at, calls), fulfilled) == [entry] + Unanswered(CallsOf(at, rest), fulfilled)
            && MissingResults(calls, fulfilled) == [SyntheticRow(entry.call)] + MissingResults(rest, fulfilled)
  {
    var head := if calls[0].Call? && calls[0].id != "" then [Entry(at, calls[0])] else [];
    UnansweredSplit(head, CallsOf(at, calls[1..]), fulfilled);
    if head != [] && calls[0].id !in fulfilled {
      rest := calls[1..];
      assert Unanswered(head, fulfilled) == head;
    } else {
      assert Unanswered(head, fulfilled) == [];
      rest := NextCall(at, calls[1..], fulfilled);
    }
  }

  lemma {:induction false} NoCallNothingOwed(at: nat, calls: seq<ToolCall>, fulfilled: set<string>)
    requires Unanswered(CallsOf(at, calls), fulfilled) == []
    ensures MissingResults(calls, fulfilled) == []
  {
    if calls != [] {
      var head := if calls[0].Call? && calls[0].id != "" then [Entry(at, calls[0])] else [];
      UnansweredSplit(head, CallsOf(at, calls[1..]), fulfilled);
      NoCallNothingOwed(at, calls[1..], fulfilled);
    }
  }

  predicate ToolsOnly(msgs: seq<Message>) {
    forall i | 0 <= i < |msgs| :: msgs[i].role == Tool
  }

  lemma HeadOfRun(tools: seq<Message>, pending: seq<Message>, behind: seq<Message>)
    requires tools != []
    ensures [tools[0]] + (tools[1..] + pending + behind) == tools + pending + behind
  {
  }

  /** Where the synthetic rows land: at the end of the contiguous tool rows, before any other row. */
  lemma {:induction false} FillRun(tools: seq<Message>, rest: seq<Message>, pending: seq<Message>,
                                   fulfilled: set<string>)
    requires ToolsOnly(tools) && (rest == [] || rest[0].role != Tool)
    ensures Fill(tools + rest, pending, fulfilled) == tools + pending + Fill(rest, [], fulfilled)
  {
    if tools == [] {
      assert tools + rest == rest;
      FillSplit([], rest, pending, fulfilled);
      assert [] + rest == rest;
    } else {
      var behind := Fill(rest, [], fulfilled);
      assert (tools + rest)[0] == tools[0] && (tools + rest)[1..] == tools[1..] + rest;
      FillRun(tools[1..], rest, pending, fulfilled);
      assert Fill(tools + rest, pending, fulfilled) == [tools[0]] + Fill(tools[1..] + rest, pending, fulfilled);
      HeadOfRun(tools, pending, behind);
    }
  }

  /** Wherever it stands: an assistant row, its own tool rows, the rows it is owed, and then the rest. */
  lemma OwedAfterOwnTools(before: seq<Message>, m: Message, tools: seq<Message>, rest: seq<Message>)
    requires m.role == Assistant && ToolsOnly(tools) && (rest == [] || rest[0].role != Tool)
    ensures var (all, f) := (before + ([m] + tools + rest), Answered(before + ([m] + tools + rest)));
            Backfilled(all)
            == Fill(before, [], f) + ([m] + tools + MissingResults(m.calls, f) + Fill(rest, [], f))
  {
    var f := Answered(before + ([m] + tools + rest));
    Shift([m], tools, rest, []);
    FillSplit(before, [m] + (tools + rest), [], f);
    OwedFirst(m, tools, rest, f);
  }

  lemma OwedFirst(m: Message, tools: seq<Message>, rest: seq<Message>, fulfilled: set<string>)
    requires m.role == Assistant && ToolsOnly(tools) && (rest == [] || rest[0].role != Tool)
    ensures Fill([m] + (tools + rest), [], fulfilled)
         == [m] + tools + MissingResults(m.calls, fulfilled) + Fill(rest, [], fulfilled)
  {
    var owed := MissingResults(m.calls, fulfilled);
    FillCons(m, tools + rest, [], fulfilled);
    FillRun(tools, rest, owed, fulfilled);
    Shift([m], tools, owed, Fill(rest, [], fulfilled));
  }

  lemma {:induction false} ToolsHaveNoCalls(tools: seq<Message>, base: nat)
    requires ToolsOnly(tools)
    ensures AllCalls(tools, base) == []
  {
    if tools != [] {
      ToolsHaveNoCalls(tools[1..], base + 1);
    }
  }

  /** The rows of a transcript up to the end of the tool rows of the next assistant row that is owed
      something (row `at`, with its calls), and the rest. */
  datatype Chunk = Chunk(lead: seq<Message>, at: nat, calls: seq<ToolCall>, rest: seq<Message>)

  /** A transcript that starts with `tools`, up to the first other row. */
  lemma {:induction false} SplitRun(msgs: seq<Message>) returns (tools: seq<Message>, rest: seq<Message>)
    ensures msgs == tools + rest && ToolsOnly(tools) && (rest == [] || rest[0].role != Tool)
  {
    if msgs == [] || msgs[0].role != Tool {
      tools, rest := [], msgs;
    } else {
      tools, rest := SplitRun(msgs[1..]);
      tools := [msgs[0]] + tools;
    }
  }

  ghost function Todo(tail: seq<Message>, base: nat, fulfilled: set<string>): seq<Entry> {
    Unanswered(AllCalls(tail, base), fulfilled)
  }

  ghost function TodoOf(at: nat, calls: seq<ToolCall>, fulfilled: set<string>): seq<Entry> {
    Unanswered(CallsOf(at, calls), fulfilled)
  }

  lemma TodoCons(m: Message, rest: seq<Message>, base: nat, fulfilled: set<string>)
    ensures Todo([m] + rest, base, fulfilled)
         == (if m.role == Assistant then TodoOf(base, m.calls, fulfilled) else []) + Todo(rest, base + 1, fulfilled)
  {
    assert ([m] + rest)[1..] == rest;
    UnansweredSplit(if m.role == Assistant then CallsOf(base, m.calls) else [], AllCalls(rest, base + 1), fulfilled);
  }

  lemma TodoBehindTools(tools: seq<Message>, rest: seq<Message>, base: nat, fulfilled: set<string>)
    requires ToolsOnly(tools)
    ensures Todo(tools + rest, base, fulfilled) == Todo(rest, base + |tools|, fulfilled)
  {
    AllCallsSplit(tools, rest, base);
    ToolsHaveNoCalls(tools, base);
    assert [] + AllCalls(rest, base + |tools|) == AllCalls(rest, base + |tools|);
  }

  lemma FillPast(m: Message, rest: seq<Message>, base: nat, fulfilled: set<string>)
    requires m.role == Assistant ==> TodoOf(base, m.calls, fulfilled) == []
    ensures Fill([m] + rest, [], fulfilled) == [m] + Fill(rest, [], fulfilled)
  {
    assert ([m] + rest)[0] == m && ([m] + rest)[1..] == rest;
    if m.role == Assistant {
      NoCallNothingOwed(base, m.calls, fulfilled);
    }
  }

  predicate ToolsFrom(rows: seq<Message>, start: int) {
    forall i | 0 <= i < |rows| && start <= i :: rows[i].role == Tool
  }

  ghost predicate Shaped(tail: seq<Message>, base: nat, c: Chunk) {
    && tail == c.lead + c.rest
    && base <= c.at < base + |c.lead| && ToolsFrom(c.lead, c.at - base + 1)
    && (c.rest == [] || c.rest[0].role != Tool)
  }

  ghost predicate IsNext(tail: seq<Message>, base: nat, fulfilled: set<string>, c: Chunk) {
    && Shaped(tail, base, c)
    && Todo(tail, base, fulfilled) == TodoOf(c.at, c.calls, fulfilled) + Todo(c.rest, base + |c.lead|, fulfilled)
    && Fill(tail, [], fulfilled) == c.lead + MissingResults(c.calls, fulfilled) + Fill(c.rest, [], fulfilled)
  }

  lemma {:induction false} NextAssistant(tail: seq<Message>, base: nat, fulfilled: set<string>) returns (c: Chunk)
    requires Todo(tail, base, fulfilled) != []
    ensures IsNext(tail, base, fulfilled, c) && TodoOf(c.at, c.calls, fulfilled) != []
  {
    var m, rest := tail[0], tail[1..];
    assert tail == [m] + rest;
    TodoCons(m, rest, base, fulfilled);
    if m.role == Assistant && TodoOf(base, m.calls, fulfilled) != [] {
      c := NextHere(m, rest, base, fulfilled);
    } else {
      var d := NextAssistant(rest, base + 1, fulfilled);
      c := d.(lead := [m] + d.lead);
      NextLater(m, rest, base, fulfilled, d);
    }
  }

  lemma NextHere(m: Message, rest: seq<Message>, base: nat, fulfilled: set<string>) returns (c: Chunk)
    requires m.role == Assistant
    ensures c.at == base && c.calls == m.calls && IsNext([m] + rest, base, fulfilled, c)
  {
    var tools, others := SplitRun(rest);
    c := Chunk([m] + tools, base, m.calls, others);
    Shift([m], tools, others, []);
    HereIsNext(m, tools, others, base, fulfilled);
  }

  lemma HereIsNext(m: Message, tools: seq<Message>, others: seq<Message>, base: nat, fulfilled: set<string>)
    requires m.role == Assistant && ToolsOnly(tools) && (others == [] || others[0].role != Tool)
    ensures IsNext([m] + (tools + others), base, fulfilled, Chunk([m] + tools, base, m.calls, others))
  {
    OwedFirst(m, tools, others, fulfilled);
    TodoHere(m, tools, others, base, fulfilled);
    HereIsShaped(m, tools, others, base);
  }

  lemma HereIsShaped(m: Message, tools: seq<Message>, others: seq<Message>, base: nat)
    requires ToolsOnly(tools) && (others == [] || others[0].role != Tool)
    ensures Shaped([m] + (tools + others), base, Chunk([m] + tools, base, m.calls, others))
  {
    Shift([m], tools, others, []);
    ToolsBehindRow(m, tools);
  }

  lemma TodoHere(m: Message, tools: seq<Message>, others: seq<Message>, base: nat, fulfilled: set<string>)
    requires m.role == Assistant && ToolsOnly(tools)
    ensures Todo([m] + (tools + others), base, fulfilled)
         == TodoOf(base, m.calls, fulfilled) + Todo(others, base + |[m] + tools|, fulfilled)
  {
    TodoCons(m, tools + others, base, fulfilled);
    TodoBehindTools(tools, others, base + 1, fulfilled);
  }

  lemma ToolsBehindRow(m: Message, tools: seq<Message>)
    requires ToolsOnly(tools)
    ensures ToolsFrom([m] + tools, 1)
  {
  }

  lemma NextLater(m: Message, rest: seq<Message>, base: nat, fulfilled: set<string>, d: Chunk)
    requires IsNext(rest, base + 1, fulfilled, d)
    requires m.role == Assistant ==> TodoOf(base, m.calls, fulfilled) == []
    ensures IsNext([m] + rest, base, fulfilled, d.(lead := [m] + d.lead))
  {
    FillPast(m, rest, base, fulfilled);
    TodoCons(m, rest, base, fulfilled);
    Shift([m], d.lead, d.rest, []);
    Shift([m], d.lead, MissingResults(d.calls, fulfilled), Fill(d.rest, [], fulfilled));
  }

  lemma Shift<T>(x: seq<T>, a: seq<T>, b: seq<T>, c: seq<T>)
    ensures x + (a + b + c) == (x + a) + b + c
    ensures c == [] ==> x + (a + b) == (x + a) + b
  {
  }

  lemma CallsAt(declared: seq<Entry>, at: nat, calls: seq<ToolCall>, i: nat)
    requires i < |calls|
    ensures declared + CallsOf(at, calls[i..])
         == (if calls[i].Call? && calls[i].id != "" then declared + [Entry(at, calls[i])] else declared)
            + CallsOf(at, calls[i + 1..])
  {
    assert calls[i..][1..] == calls[i + 1..];
  }

  /** The calls with an id of one assistant row. */
  method ScanRow(at: nat, calls: seq<ToolCall>) returns (declared: seq<Entry>)
    ensures declared == CallsOf(at, calls)
  {
    declared := [];
    assert calls[0..] == calls;
    for i := 0 to |calls|
      invariant declared + CallsOf(at, calls[i..]) == CallsOf(at, calls)
    {
      CallsAt(declared, at, calls, i);
      if calls[i].Call? && calls[i].id != "" {
        declared := declared + [Entry(at, calls[i])];
      }
    }
  }

  lemma {:induction false} AllCallsSnoc(msgs: seq<Message>, msg: Message)
    ensures AllCalls(msgs + [msg], 0)
         == AllCalls(msgs, 0) + if msg.role == Assistant then CallsOf(|msgs|, msg.calls) else []
  {
    AllCallsSplit(msgs, [msg], 0);
    OneRowCalls(msg, |msgs|);
  }

  lemma OneRowCalls(msg: Message, at: nat)
    ensures AllCalls([msg], at) == if msg.role == Assistant then CallsOf(at, msg.calls) else []
  {
    assert [msg][1..] == [];
  }

  /** The declared calls with their row indices, and the answered ids. */
  method ScanCalls(messages: seq<Message>) returns (declared: seq<Entry>, fulfilled: set<string>)
    ensures declared == AllCalls(messages, 0) && fulfilled == Answered(messages)
  {
    declared, fulfilled := [], {};
    for idx := 0 to |messages|
      invariant declared == AllCalls(messages[..idx], 0) && fulfilled == Answered(messages[..idx])
    {
      var msg := messages[idx];
      assert messages[..idx + 1] == messages[..idx] + [msg];
      AllCallsSnoc(messages[..idx], msg);
      AnsweredSplit(messages[..idx], [msg]);
      if msg.role == Assistant {
        var calls := ScanRow(idx, msg.calls);
        declared := declared + calls;
      } else if msg.role == Tool && msg.toolId != "" {
        fulfilled := fulfilled + {msg.toolId};
      }
    }
    assert messages[..|messages|] == messages;
  }

  lemma UnansweredAt(missing: seq<Entry>, declared: seq<Entry>, fulfilled: set<string>, i: nat)
    requires i < |declared|
    ensures missing + Unanswered(declared[i..], fulfilled)
         == (if declared[i].call.Call? && declared[i].call.id !in fulfilled then missing + [declared[i]] else missing)
            + Unanswered(declared[i + 1..], fulfilled)
  {
    assert declared[i..][1..] == declared[i + 1..];
  }

  method SelectUnanswered(declared: seq<Entry>, fulfilled: set<string>) returns (missing: seq<Entry>)
    ensures missing == Unanswered(declared, fulfilled)
  {
    missing := [];
    assert declared[0..] == declared;
    for i := 0 to |declared|
      invariant missing + Unanswered(declared[i..], fulfilled) == Unanswered(declared, fulfilled)
    {
      UnansweredAt(missing, declared, fulfilled, i);
      if declared[i].call.Call? && declared[i].call.id !in fulfilled {
        missing := missing + [declared[i]];
      }
    }
  }

  /** Insert one row behind the tool rows that start at `start`. */
  method InsertAfterTools(rows: seq<Message>, start: nat, row: Message, ghost finished: seq<Message>,
                          ghost tail: seq<Message>)
    returns (grown: seq<Message>)
    requires rows == finished + tail && start <= |finished| && ToolsFrom(finished, start)
    requires tail == [] || tail[0].role != Tool
    ensures grown == finished + [row] + tail
  {
    var insertAt := start;
    while insertAt < |rows| && rows[insertAt].role == Tool
      invariant start <= insertAt <= |finished|
    {
      insertAt := insertAt + 1;
    }
    grown := rows[..insertAt] + [row] + rows[insertAt..];
  }

  /** The state of the insertion loop: `finished` is final except for the results of the `calls` of row
      `at`, which go right behind it; `tail` starts at row `base` and is not reached yet. */
  datatype Progress = Progress(finished: seq<Message>, at: nat, calls: seq<ToolCall>, tail: seq<Message>, base: nat)

  ghost predicate Inserting(messages: seq<Message>, fulfilled: set<string>, s: Progress, offset: nat,
                            remaining: seq<Entry>) {
    && |s.finished| == s.base + offset
    && remaining == TodoOf(s.at, s.calls, fulfilled) + Todo(s.tail, s.base, fulfilled)
    && Fill(messages, [], fulfilled)
       == s.finished + MissingResults(s.calls, fulfilled) + Fill(s.tail, [], fulfilled)
  }

  /** The tool rows of row `at` end where `finished` ends. */
  ghost predicate Positioned(s: Progress, offset: nat) {
    && s.at + 1 + offset <= |s.finished| && ToolsFrom(s.finished, s.at + 1 + offset)
    && (s.tail == [] || s.tail[0].role != Tool)
  }

  lemma Advance(messages: seq<Message>, fulfilled: set<string>, s: Progress, offset: nat, remaining: seq<Entry>)
    returns (s': Progress)
    requires Inserting(messages, fulfilled, s, offset, remaining) && remaining != []
    requires TodoOf(s.at, s.calls, fulfilled) == []
    ensures Inserting(messages, fulfilled, s', offset, remaining) && Positioned(s', offset)
    ensures s'.finished + s'.tail == s.finished + s.tail && TodoOf(s'.at, s'.calls, fulfilled) != []
  {
    NoCallNothingOwed(s.at, s.calls, fulfilled);
    assert remaining == Todo(s.tail, s.base, fulfilled);
    var c := NextAssistant(s.tail, s.base, fulfilled);
    s' := Progress(s.finished + c.lead, c.at, c.calls, c.rest, s.base + |c.lead|);
    assert s.finished + [] == s.finished;
    Shift(s.finished, c.lead, MissingResults(c.calls, fulfilled), Fill(c.rest, [], fulfilled));
    Shift(s.finished, c.lead, c.rest, []);
    ToolsBehind(s.finished, c.lead, c.at - s.base + 1);
  }

  lemma ToolsBehind(a: seq<Message>, b: seq<Message>, start: nat)
    requires ToolsFrom(b, start)
    ensures ToolsFrom(a + b, |a| + start)
  {
  }

  lemma Inserted(messages: seq<Message>, fulfilled: set<string>, s: Progress, offset: nat, remaining: seq<Entry>)
    returns (s': Progress)
    requires Inserting(messages, fulfilled, s, offset, remaining) && Positioned(s, offset)
    requires TodoOf(s.at, s.calls, fulfilled) != []
    ensures remaining != [] && remaining[0].at == s.at && remaining[0].call.Call?
    ensures s'.finished == s.finished + [SyntheticRow(remaining[0].call)] && s'.tail == s.tail
    ensures Inserting(messages, fulfilled, s', offset + 1, remaining[1..]) && Positioned(s', offset + 1)
  {
    var rest := NextCall(s.at, s.calls, fulfilled);
    var entry := TodoOf(s.at, s.calls, fulfilled)[0];
    HeadAndTail(entry, TodoOf(s.at, rest, fulfilled), Todo(s.tail, s.base, fulfilled));
    s' := s.(finished := s.finished + [SyntheticRow(entry.call)], calls := rest);
    Regroup(s.finished, SyntheticRow(entry.call), MissingResults(rest, fulfilled), Fill(s.tail, [], fulfilled));
  }

  lemma HeadAndTail<T>(e: T, a: seq<T>, b: seq<T>)
    ensures ([e] + a + b)[0] == e && ([e] + a + b)[1..] == a + b
  {
  }

  lemma Regroup<T>(x: seq<T>, r: T, y: seq<T>, z: seq<T>)
    ensures x + ([r] + y) + z == (x + [r]) + y + z
  {
  }

  /** What the insertion loop keeps. */
  ghost predicate Working(messages: seq<Message>, fulfilled: set<string>, s: Progress, offset: nat,
                          remaining: seq<Entry>) {
    && Inserting(messages, fulfilled, s, offset, remaining)
    && (TodoOf(s.at, s.calls, fulfilled) != [] ==> Positioned(s, offset))
  }

  /** Where the next row goes (behind `p.finished`), and the state after it is there. */
  lemma NextInsertion(messages: seq<Message>, fulfilled: set<string>, s: Progress, offset: nat, remaining: seq<Entry>)
    returns (p: Progress, next: Progress)
    requires Working(messages, fulfilled, s, offset, remaining) && remaining != []
    ensures remaining[0].at == p.at && remaining[0].call.Call? && Positioned(p, offset)
    ensures p.finished + p.tail == s.finished + s.tail
    ensures next.finished == p.finished + [SyntheticRow(remaining[0].call)] && next.tail == p.tail
    ensures Working(messages, fulfilled, next, offset + 1, remaining[1..])
  {
    p := s;
    if TodoOf(s.at, s.calls, fulfilled) == [] {
      p := Advance(messages, fulfilled, s, offset, remaining);
    }
    next := Inserted(messages, fulfilled, p, offset, remaining);
  }

  lemma Beginning(messages: seq<Message>, fulfilled: set<string>)
    ensures Working(messages, fulfilled, Progress([], 0, [], messages, 0), 0, Todo(messages, 0, fulfilled))
  {
  }

  lemma Ending(messages: seq<Message>, fulfilled: set<string>, s: Progress, offset: nat)
    requires Working(messages, fulfilled, s, offset, [])
    ensures s.finished + s.tail == Fill(messages, [], fulfilled)
  {
    assert TodoOf(s.at, s.calls, fulfilled) == [] && Todo(s.tail, s.base, fulfilled) == [];
    NothingLeft(s.tail, s.base, fulfilled);
    NoCallNothingOwed(s.at, s.calls, fulfilled);
    assert s.finished + [] == s.finished;
  }

  /** The insertion loop: `offset` counts the rows inserted so far, and each row goes behind the tool
      rows that follow its assistant row in the grown list. */
  method BackfillMissingToolResults(messages: seq<Message>) returns (updated: seq<Message>)
    ensures updated == Backfilled(messages)
  {
    var declared, fulfilled := ScanCalls(messages);
    var missing := SelectUnanswered(declared, fulfilled);
    updated := messages;
    ghost var s := Progress([], 0, [], messages, 0);
    ghost var remaining := missing;
    Beginning(messages, fulfilled);
    for offset := 0 to |missing|
      invariant updated == s.finished + s.tail
      invariant remaining == missing[offset..]
      invariant Working(messages, fulfilled, s, offset, remaining)
    {
      var entry := missing[offset];
      ghost var p, next := NextInsertion(messages, fulfilled, s, offset, remaining);
      updated := InsertAfterTools(updated, entry.at + 1 + offset, SyntheticRow(entry.call), p.finished, p.tail);
      s, remaining := next, remaining[1..];
    }
    Ending(messages, fulfilled, s, |missing|);
  }

  lemma {:induction false} NothingLeft(tail: seq<Message>, base: nat, fulfilled: set<string>)
    requires Todo(tail, base, fulfilled) == []
    ensures Fill(tail, [], fulfilled) == tail
  {
    if tail != [] {
      var m, rest := tail[0], tail[1..];
      assert tail == [m] + rest;
      TodoCons(m, rest, base, fulfilled);
      FillPast(m, rest, base, fulfilled);
      NothingLeft(rest, base + 1, fulfilled);
    }
  }

  // ----- nothing but synthetic rows is added

  /** The rows without the results of ids outside `fulfilled`. */
  function Erased(msgs: seq<Message>, fulfilled: set<string>): seq<Message> {
    if msgs == [] then []
    else (if msgs[0].role == Tool && msgs[0].toolId != "" && msgs[0].toolId !in fulfilled then [] else [msgs[0]])
         + Erased(msgs[1..], fulfilled)
  }

  lemma {:induction false} ErasedSplit(a: seq<Message>, b: seq<Message>, fulfilled: set<string>)
    ensures Erased(a + b, fulfilled) == Erased(a, fulfilled) + Erased(b, fulfilled)
  {
    if a == [] {
      assert a + b == b;
    } else {
      assert (a + b)[0] == a[0] && (a + b)[1..] == a[1..] + b;
      ErasedSplit(a[1..], b, fulfilled);
      var head := if a[0].role == Tool && a[0].toolId != "" && a[0].toolId !in fulfilled then [] else [a[0]];
      Shift(head, Erased(a[1..], fulfilled), Erased(b, fulfilled), []);
    }
  }

  lemma {:induction false} ErasedOwed(calls: seq<ToolCall>, fulfilled: set<string>)
    ensures Erased(MissingResults(calls, fulfilled), fulfilled) == []
  {
    if calls != [] {
      ErasedOwed(calls[1..], fulfilled);
      var missing := calls[0].Call? && calls[0].id != "" && calls[0].id !in fulfilled;
      var head := if missing then [SyntheticRow(calls[0])] else [];
      ErasedSplit(head, MissingResults(calls[1..], fulfilled), fulfilled);
    }
  }

  lemma {:induction false} ErasedFill(msgs: seq<Message>, pending: seq<Message>, fulfilled: set<string>)
    requires Erased(pending, fulfilled) == []
    ensures Erased(Fill(msgs, pending, fulfilled), fulfilled) == Erased(msgs, fulfilled)
  {
    if msgs != [] {
      var m, rest := msgs[0], msgs[1..];
      var owed := if m.role == Tool then pending else Owed(m, fulfilled);
      ErasedOwed(m.calls, fulfilled);
      ErasedFill(rest, owed, fulfilled);
      FillCons(m, rest, pending, fulfilled);
      var tail := Fill(rest, owed, fulfilled);
      ErasedSplit([m], tail, fulfilled);
      ErasedSplit([m], rest, fulfilled);
      assert msgs == [m] + rest;
      ErasedSplit(pending, [m] + tail, fulfilled);
      assert [] + Erased([m] + tail, fulfilled) == Erased([m] + tail, fulfilled);
    }
  }

  lemma {:induction false} ErasedKeeps(msgs: seq<Message>, fulfilled: set<string>)
    requires Answered(msgs) <= fulfilled
    ensures Erased(msgs, fulfilled) == msgs
  {
    if msgs != [] {
      ErasedKeeps(msgs[1..], fulfilled);
      assert msgs == [msgs[0]] + msgs[1..];
    }
  }

  /** Deleting the results of the unanswered ids gives the input back. */
  lemma BackfillIsReversible(msgs: seq<Message>)
    ensures Erased(Backfilled(msgs), Answered(msgs)) == msgs
  {
    ErasedFill(msgs, [], Answered(msgs));
    ErasedKeeps(msgs, Answered(msgs));
  }
}
