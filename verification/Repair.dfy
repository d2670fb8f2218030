/** What the repair passes compute: the model-facing copy in which tool calls and tool results
    pair up. The passes themselves are in RepairPasses.dfy. */
module Repair {
  import opened Text
  import opened Transcript

  const BACKFILL_CONTENT: string := "[Tool result unavailable — call was interrupted or lost]"
  const PLACEHOLDER: string := "[Previous assistant message omitted.]"

  // ----- strip placeholder rows and malformed calls

  predicate ValidName(call: ToolCall) {
    call.Call? &&
    var field := if call.fn.Some? then call.fn.value else call.name;
    field.Named? && field.text != ""
  }

  function ValidCalls(calls: seq<ToolCall>): seq<ToolCall> {
    if calls == [] then []
    else (if ValidName(calls[0]) then [calls[0]] else []) + ValidCalls(calls[1..])
  }

  predicate PlaceholderText(c: Content) {
    c.Str? && Strip(c.text) == PLACEHOLDER
  }

  /** An assistant row that is a placeholder and calls no tool. */
  predicate Omitted(m: Message) {
    m.role == Assistant && PlaceholderText(m.content) && m.calls == []
  }

  /** One row after the malformed calls are dropped: no row when nothing is left of it. */
  function Trimmed(m: Message): seq<Message> {
    if m.role != Assistant || ValidCalls(m.calls) == m.calls then [m]
    else if ValidCalls(m.calls) == [] && !Truthy(m.content) then []
    else [m.(calls := ValidCalls(m.calls))]
  }

  function StripPlaceholders(msgs: seq<Message>): seq<Message> {
    if msgs == [] then []
    else (if Omitted(msgs[0]) then [] else [msgs[0]]) + StripPlaceholders(msgs[1..])
  }

  function StripMalformed(msgs: seq<Message>): seq<Message> {
    if msgs == [] then [] else Trimmed(msgs[0]) + StripMalformed(msgs[1..])
  }

  function Stripped(msgs: seq<Message>): seq<Message> {
    StripMalformed(StripPlaceholders(msgs))
  }

  // ----- drop tool rows without a call

  predicate KeepRow(m: Message, declared: set<string>, fulfilled: set<string>) {
    m.role == Tool ==> Answers(m, declared, fulfilled)
  }

  function DropOrphans(msgs: seq<Message>, declared: set<string>, fulfilled: set<string>): seq<Message> {
    if msgs == [] then []
    else if KeepRow(msgs[0], declared, fulfilled)
    then [msgs[0]] + DropOrphans(msgs[1..], DeclaredAfter(msgs[0], declared), AnsweredAfter(msgs[0], fulfilled))
    else DropOrphans(msgs[1..], declared, fulfilled)
  }

  // ----- fill in the missing results

  /** The tool name that a synthetic result carries. */
  function ShownName(call: ToolCall): string
    requires call.Call?
  {
    if call.fn.None? then ""
    else match call.fn.value
      case NoName => ""
      case NonText(shown) => shown
      case Named(text) => text
  }

  function SyntheticRow(call: ToolCall): Message
    requires call.Call?
  {
    ToolRow(call.id, ShownName(call), Str(BACKFILL_CONTENT))
  }

  function MissingResults(calls: seq<ToolCall>, fulfilled: set<string>): seq<Message> {
    if calls == [] then []
    else
      (if calls[0].Call? && calls[0].id != "" && calls[0].id !in fulfilled
       then [SyntheticRow(calls[0])] else [])
      + MissingResults(calls[1..], fulfilled)
  }

  /** The synthetic results that the row `m` is owed. */
  function Owed(m: Message, fulfilled: set<string>): seq<Message> {
    if m.role == Assistant then MissingResults(m.calls, fulfilled) else []
  }

  /** The transcript with the owed rows put in: `pending` is what the last assistant row is owed,
      and it is paid when the tool rows directly after that assistant row end. */
  function Fill(msgs: seq<Message>, pending: seq<Message>, fulfilled: set<string>): seq<Message> {
    if msgs == [] then pending
    else if msgs[0].role == Tool then [msgs[0]] + Fill(msgs[1..], pending, fulfilled)
    else pending + [msgs[0]] + Fill(msgs[1..], Owed(msgs[0], fulfilled), fulfilled)
  }

  function Backfilled(msgs: seq<Message>): seq<Message> {
    Fill(msgs, [], Answered(msgs))
  }

  // ----- normalize tool results

  /** The key under which a result is normalized: its call id, or `tool_` and its index. */
  datatype ResultKey = OfCall(id: string) | AtIndex(idx: nat)

  /** What a tool result becomes: a function of its key, the tool name and the content. */
  type Normalizer = (ResultKey, string, Content) -> Content

  ghost predicate Idempotent(norm: Normalizer) {
    forall key, name, c :: norm(key, name, norm(key, name, c)) == norm(key, name, c)
  }

  function Normalized(norm: Normalizer, m: Message, idx: nat): Message {
    if m.role != Tool then m
    else m.(content := norm(if m.toolId == "" then AtIndex(idx) else OfCall(m.toolId),
                            if m.name == "" then "tool" else m.name,
                            m.content))
  }

  function Budgeted(norm: Normalizer, msgs: seq<Message>, idx: nat): seq<Message> {
    if msgs == [] then [] else [Normalized(norm, msgs[0], idx)] + Budgeted(norm, msgs[1..], idx + 1)
  }

  /** The whole repair of one transcript. */
  function Paired(msgs: seq<Message>): seq<Message> {
    Backfilled(DropOrphans(Stripped(msgs), {}, {}))
  }

  function Repaired(norm: Normalizer, msgs: seq<Message>): seq<Message> {
    Budgeted(norm, Paired(msgs), 0)
  }

  // ----- each pass on a concatenation

  lemma {:induction false} StrippedSplit(a: seq<Message>, b: seq<Message>)
    ensures Stripped(a + b) == Stripped(a) + Stripped(b)
  {
    StripPlaceholdersSplit(a, b);
    StripMalformedSplit(StripPlaceholders(a), StripPlaceholders(b));
  }

  lemma {:induction false} StripPlaceholdersSplit(a: seq<Message>, b: seq<Message>)
    ensures StripPlaceholders(a + b) == StripPlaceholders(a) + StripPlaceholders(b)
  {
    if a == [] {
      assert a + b == b;
    } else {
      assert (a + b)[1..] == a[1..] + b;
      StripPlaceholdersSplit(a[1..], b);
    }
  }

  lemma {:induction false} StripMalformedSplit(a: seq<Message>, b: seq<Message>)
    ensures StripMalformed(a + b) == StripMalformed(a) + StripMalformed(b)
  {
    if a == [] {
      assert a + b == b;
    } else {
      assert (a + b)[1..] == a[1..] + b;
      StripMalformedSplit(a[1..], b);
    }
  }

  lemma DropCons(m: Message, rest: seq<Message>, declared: set<string>, fulfilled: set<string>)
    ensures DropOrphans([m] + rest, declared, fulfilled)
         == if KeepRow(m, declared, fulfilled)
            then [m] + DropOrphans(rest, DeclaredAfter(m, declared), AnsweredAfter(m, fulfilled))
            else DropOrphans(rest, declared, fulfilled)
  {
    assert ([m] + rest)[0] == m && ([m] + rest)[1..] == rest;
  }

  lemma AnsweredCons(m: Message, rest: seq<Message>)
    ensures Answered([m] + rest) == AnsweredAfter(m, {}) + Answered(rest)
    ensures Declared([m] + rest) == DeclaredAfter(m, {}) + Declared(rest)
  {
    assert ([m] + rest)[1..] == rest;
  }

  lemma {:induction false} DropSplit(a: seq<Message>, b: seq<Message>, declared: set<string>, fulfilled: set<string>)
    ensures DropOrphans(a + b, declared, fulfilled)
         == DropOrphans(a, declared, fulfilled)
            + DropOrphans(b, declared + Declared(a), fulfilled + Answered(DropOrphans(a, declared, fulfilled)))
  {
    if a == [] {
      assert a + b == b;
      assert declared + Declared(a) == declared && fulfilled + {} == fulfilled;
    } else {
      var m, rest := a[0], a[1..];
      assert a == [m] + rest && a + b == [m] + (rest + b);
      DropCons(m, rest, declared, fulfilled);
      DropCons(m, rest + b, declared, fulfilled);
      AnsweredCons(m, rest);
      if KeepRow(m, declared, fulfilled) {
        var d, f := DeclaredAfter(m, declared), AnsweredAfter(m, fulfilled);
        DropSplit(rest, b, d, f);
        AnsweredCons(m, DropOrphans(rest, d, f));
        assert d + Declared(rest) == declared + Declared(a);
        assert f + Answered(DropOrphans(rest, d, f)) == fulfilled + Answered(DropOrphans(a, declared, fulfilled));
      } else {
        DropSplit(rest, b, declared, fulfilled);
        assert Declared(rest) == Declared(a);
      }
    }
  }

  /** Dropping orphans leaves a legal transcript with the same declarations. */
  lemma {:induction false} DropIsLegal(msgs: seq<Message>, declared: set<string>, fulfilled: set<string>)
    ensures Legal(DropOrphans(msgs, declared, fulfilled), declared, fulfilled)
    ensures Declared(DropOrphans(msgs, declared, fulfilled)) == Declared(msgs)
  {
    if msgs != [] {
      var m, rest := msgs[0], msgs[1..];
      assert msgs == [m] + rest;
      AnsweredCons(m, rest);
      if KeepRow(m, declared, fulfilled) {
        var tail := DropOrphans(rest, DeclaredAfter(m, declared), AnsweredAfter(m, fulfilled));
        DropIsLegal(rest, DeclaredAfter(m, declared), AnsweredAfter(m, fulfilled));
        AnsweredCons(m, tail);
        assert ([m] + tail)[1..] == tail;
      } else {
        DropIsLegal(rest, declared, fulfilled);
      }
    }
  }

  lemma {:induction false} DropKeepsLegal(msgs: seq<Message>, declared: set<string>, fulfilled: set<string>)
    requires Legal(msgs, declared, fulfilled)
    ensures DropOrphans(msgs, declared, fulfilled) == msgs
  {
    if msgs != [] {
      DropKeepsLegal(msgs[1..], DeclaredAfter(msgs[0], declared), AnsweredAfter(msgs[0], fulfilled));
      assert msgs == [msgs[0]] + msgs[1..];
    }
  }

  /** Ids that the tool rows of a transcript do not mention do not change what is dropped. */
  lemma {:induction false} DropContext(msgs: seq<Message>, declared: set<string>, fulfilled: set<string>,
                                       d: set<string>, f: set<string>)
    requires Answered(msgs) !! d && Answered(msgs) !! f
    ensures DropOrphans(msgs, declared + d, fulfilled + f) == DropOrphans(msgs, declared, fulfilled)
  {
    if msgs != [] {
      var m, rest := msgs[0], msgs[1..];
      assert m.role == Tool && m.toolId != "" ==> m.toolId in Answered(msgs);
      assert KeepRow(m, declared + d, fulfilled + f) <==> KeepRow(m, declared, fulfilled);
      if KeepRow(m, declared, fulfilled) {
        DropContext(rest, DeclaredAfter(m, declared), AnsweredAfter(m, fulfilled), d, f);
        assert DeclaredAfter(m, declared + d) == DeclaredAfter(m, declared) + d;
        assert AnsweredAfter(m, fulfilled + f) == AnsweredAfter(m, fulfilled) + f;
      } else {
        DropContext(rest, declared, fulfilled, d, f);
      }
    }
  }

  lemma {:induction false} AnsweredOfLegal(msgs: seq<Message>, declared: set<string>, answered: set<string>)
    requires Legal(msgs, declared, answered)
    ensures Answered(msgs) <= declared + Declared(msgs)
  {
    if msgs != [] {
      AnsweredOfLegal(msgs[1..], DeclaredAfter(msgs[0], declared), AnsweredAfter(msgs[0], answered));
    }
  }

  lemma {:induction false} DropAnswered(msgs: seq<Message>, declared: set<string>, fulfilled: set<string>)
    ensures Answered(DropOrphans(msgs, declared, fulfilled)) <= Answered(msgs)
  {
    if msgs != [] {
      var m, rest := msgs[0], msgs[1..];
      if KeepRow(m, declared, fulfilled) {
        var d, f := DeclaredAfter(m, declared), AnsweredAfter(m, fulfilled);
        DropAnswered(rest, d, f);
        AnsweredCons(m, DropOrphans(rest, d, f));
      } else {
        DropAnswered(rest, declared, fulfilled);
      }
    }
  }

  /** Filling a concatenation whose second part does not start with a tool row fills each part. */
  lemma {:induction false} FillSplit(a: seq<Message>, b: seq<Message>, pending: seq<Message>, fulfilled: set<string>)
    requires b == [] || b[0].role != Tool
    ensures Fill(a + b, pending, fulfilled) == Fill(a, pending, fulfilled) + Fill(b, [], fulfilled)
  {
    if a == [] {
      assert a + b == b;
      if b != [] {
        assert Fill(b, pending, fulfilled) == pending + Fill(b, [], fulfilled);
      }
    } else {
      var m, rest := a[0], a[1..];
      var owed := if m.role == Tool then pending else Owed(m, fulfilled);
      assert (a + b)[0] == m && (a + b)[1..] == rest + b;
      FillSplit(rest, b, owed, fulfilled);
      var lead := if m.role == Tool then [m] else pending + [m];
      assert Fill(a + b, pending, fulfilled) == lead + Fill(rest + b, owed, fulfilled);
      assert Fill(a, pending, fulfilled) == lead + Fill(rest, owed, fulfilled);
      Assoc(lead, Fill(rest, owed, fulfilled), Fill(b, [], fulfilled));
    }
  }

  lemma Assoc(a: seq<Message>, b: seq<Message>, c: seq<Message>)
    ensures a + (b + c) == (a + b) + c
  {
  }

  /** What a row is owed depends only on whether its own ids are answered. */
  lemma {:induction false} OwedContext(calls: seq<ToolCall>, f: set<string>, g: set<string>)
    requires forall id | id in CallIds(calls) :: id in f <==> id in g
    ensures MissingResults(calls, f) == MissingResults(calls, g)
  {
    if calls != [] {
      assert forall id | id in CallIds(calls[1..]) :: id in CallIds(calls);
      assert calls[0].Call? && calls[0].id != "" ==> calls[0].id in CallIds(calls);
      OwedContext(calls[1..], f, g);
    }
  }

  lemma {:induction false} FillContext(msgs: seq<Message>, pending: seq<Message>, f: set<string>, g: set<string>)
    requires forall id | id in Declared(msgs) :: id in f <==> id in g
    ensures Fill(msgs, pending, f) == Fill(msgs, pending, g)
  {
    if msgs != [] {
      var m, rest := msgs[0], msgs[1..];
      if m.role == Assistant {
        OwedContext(m.calls, f, g);
      }
      if m.role == Tool {
        FillContext(rest, pending, f, g);
      } else {
        FillContext(rest, Owed(m, f), f, g);
      }
    }
  }

  lemma {:induction false} NothingOwed(calls: seq<ToolCall>, fulfilled: set<string>)
    requires CallIds(calls) <= fulfilled
    ensures MissingResults(calls, fulfilled) == []
  {
    if calls != [] {
      assert CallIds(calls[1..]) <= CallIds(calls);
      assert calls[0].Call? && calls[0].id != "" ==> calls[0].id in CallIds(calls);
      NothingOwed(calls[1..], fulfilled);
    }
  }

  lemma {:induction false} FillComplete(msgs: seq<Message>, fulfilled: set<string>)
    requires Declared(msgs) <= fulfilled
    ensures Fill(msgs, [], fulfilled) == msgs
  {
    if msgs != [] {
      if msgs[0].role == Assistant {
        NothingOwed(msgs[0].calls, fulfilled);
      }
      FillComplete(msgs[1..], fulfilled);
      assert msgs == [msgs[0]] + msgs[1..];
    }
  }
}
