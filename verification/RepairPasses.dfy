/** The repair passes as loops. Each copies the list only when something changes. */
module RepairPasses {
  import opened Transcript
  import opened Repair
  import opened Backfill
  import opened MergeUsers
  import opened Requests

  /** The rows kept so far: the unchanged prefix until a copy was made. */
  function Rows(updated: Option<seq<Message>>, messages: seq<Message>, i: nat): seq<Message>
    requires i <= |messages|
  {
    if updated.None? then messages[..i] else updated.value
  }

  /** One row further: the rows kept so far grow by the `piece` that becomes of row `i`. */
  lemma RowsGrow(messages: seq<Message>, i: nat, piece: seq<Message>, rest: seq<Message>,
                 before: Option<seq<Message>>, after: Option<seq<Message>>)
    requires i < |messages|
    requires after.None? ==> before.None? && piece == [messages[i]]
    requires after.Some? ==> after.value == Rows(before, messages, i) + piece
    ensures Rows(after, messages, i + 1) + rest == Rows(before, messages, i) + (piece + rest)
  {
    assert messages[..i + 1] == messages[..i] + [messages[i]];
  }

  lemma Head(messages: seq<Message>, i: nat)
    requires i < |messages|
    ensures messages[i..] == [messages[i]] + messages[i + 1..]
  {
  }

  lemma StripPlaceholdersCons(m: Message, rest: seq<Message>)
    ensures StripPlaceholders([m] + rest) == (if Omitted(m) then [] else [m]) + StripPlaceholders(rest)
  {
    assert ([m] + rest)[0] == m && ([m] + rest)[1..] == rest;
  }

  lemma StripMalformedCons(m: Message, rest: seq<Message>)
    ensures StripMalformed([m] + rest) == Trimmed(m) + StripMalformed(rest)
  {
    assert ([m] + rest)[0] == m && ([m] + rest)[1..] == rest;
  }

  method StripPlaceholderAssistantMessages(messages: seq<Message>) returns (r: seq<Message>)
    ensures r == StripPlaceholders(messages)
  {
    var updated: Option<seq<Message>> := None;
    assert messages[0..] == messages;
    for idx := 0 to |messages|
      invariant Rows(updated, messages, idx) + StripPlaceholders(messages[idx..]) == StripPlaceholders(messages)
    {
      var msg := messages[idx];
      ghost var before := updated;
      var isPlaceholder := PlaceholderText(msg.content);
      if msg.role == Assistant && isPlaceholder && msg.calls == [] {
        updated := Some(Rows(updated, messages, idx));
      } else if updated.Some? {
        updated := Some(updated.value + [msg]);
      }
      Head(messages, idx);
      StripPlaceholdersCons(msg, messages[idx + 1..]);
      RowsGrow(messages, idx, if Omitted(msg) then [] else [msg], StripPlaceholders(messages[idx + 1..]), before,
               updated);
    }
    assert messages[..|messages|] == messages;
    r := if updated.None? then messages else updated.value;
  }

  method KeepValidCalls(calls: seq<ToolCall>) returns (kept: seq<ToolCall>)
    ensures kept == ValidCalls(calls)
  {
    kept := [];
    assert calls[0..] == calls;
    for i := 0 to |calls|
      invariant kept + ValidCalls(calls[i..]) == ValidCalls(calls)
    {
      assert calls[i..][1..] == calls[i + 1..];
      if ValidName(calls[i]) {
        kept := kept + [calls[i]];
      }
    }
  }

  lemma {:induction false} FewerCalls(calls: seq<ToolCall>)
    ensures |ValidCalls(calls)| <= |calls|
    ensures |ValidCalls(calls)| == |calls| <==> ValidCalls(calls) == calls
  {
    if calls != [] {
      FewerCalls(calls[1..]);
      assert calls == [calls[0]] + calls[1..];
    }
  }

  /** One row further in the pass over malformed calls. */
  lemma TrimmedRow(messages: seq<Message>, i: nat, before: Option<seq<Message>>, after: Option<seq<Message>>)
    requires i < |messages|
    requires after.None? ==> before.None? && Trimmed(messages[i]) == [messages[i]]
    requires after.Some? ==> after.value == Rows(before, messages, i) + Trimmed(messages[i])
    ensures Rows(after, messages, i + 1) + StripMalformed(messages[i + 1..])
            == Rows(before, messages, i) + StripMalformed(messages[i..])
  {
    Head(messages, i);
    StripMalformedCons(messages[i], messages[i + 1..]);
    RowsGrow(messages, i, Trimmed(messages[i]), StripMalformed(messages[i + 1..]), before, after);
  }

  method StripMalformedToolCalls(messages: seq<Message>) returns (r: seq<Message>)
    ensures r == StripMalformed(messages)
  {
    var updated: Option<seq<Message>> := None;
    assert messages[0..] == messages;
    for idx := 0 to |messages|
      invariant Rows(updated, messages, idx) + StripMalformed(messages[idx..]) == StripMalformed(messages)
    {
      var msg := messages[idx];
      ghost var before := updated;
      var kept := KeepValidCalls(msg.calls);
      FewerCalls(msg.calls);
      if msg.role == Assistant && |kept| != |msg.calls| {
        updated := Some(Rows(updated, messages, idx));
        if kept != [] || Truthy(msg.content) {
          updated := Some(updated.value + [msg.(calls := kept)]);
        }
      } else if updated.Some? {
        updated := Some(updated.value + [msg]);
      }
      TrimmedRow(messages, idx, before, updated);
    }
    assert messages[..|messages|] == messages;
    r := if updated.None? then messages else updated.value;
  }

  method DropOrphanToolResults(messages: seq<Message>) returns (r: seq<Message>)
    ensures r == DropOrphans(messages, {}, {})
  {
    var declared, fulfilled: set<string> := {}, {};
    var updated: Option<seq<Message>> := None;
    assert messages[0..] == messages;
    for idx := 0 to |messages|
      invariant Rows(updated, messages, idx) + DropOrphans(messages[idx..], declared, fulfilled)
             == DropOrphans(messages, {}, {})
    {
      var msg := messages[idx];
      ghost var before, keep := updated, KeepRow(msg, declared, fulfilled);
      Head(messages, idx);
      DropCons(msg, messages[idx + 1..], declared, fulfilled);
      if msg.role == Assistant {
        declared := declared + CallIds(msg.calls);
      }
      if msg.role == Tool && (msg.toolId == "" || msg.toolId !in declared || msg.toolId in fulfilled) {
        updated := Some(Rows(updated, messages, idx));
      } else {
        if msg.role == Tool {
          fulfilled := fulfilled + {msg.toolId};
        }
        if updated.Some? {
          updated := Some(updated.value + [msg]);
        }
      }
      RowsGrow(messages, idx, if keep then [msg] else [], DropOrphans(messages[idx + 1..], declared, fulfilled),
               before, updated);
    }
    assert messages[..|messages|] == messages;
    r := if updated.None? then messages else updated.value;
  }

  lemma {:induction false} BudgetedLength(norm: Normalizer, msgs: seq<Message>, idx: nat)
    ensures var r := Budgeted(norm, msgs, idx);
            |r| == |msgs| && forall i | 0 <= i < |msgs| :: r[i] == Normalized(norm, msgs[i], idx + i)
  {
    if msgs != [] {
      BudgetedLength(norm, msgs[1..], idx + 1);
    }
  }

  /** Every tool result is normalized under its call id, or under its position without one, and under its name, or as
      `tool` without one; every other row stays. */
  lemma ResultsNormalized(norm: Normalizer, msgs: seq<Message>, i: nat)
    requires i < |msgs|
    ensures |Budgeted(norm, msgs, 0)| == |msgs|
    ensures Budgeted(norm, msgs, 0)[i]
         == if msgs[i].role != Tool then msgs[i]
            else msgs[i].(content := norm(if msgs[i].toolId != "" then OfCall(msgs[i].toolId) else AtIndex(i),
                                          if msgs[i].name != "" then msgs[i].name else "tool", msgs[i].content))
  {
    BudgetedLength(norm, msgs, 0);
  }

  method ApplyToolResultBudget(norm: Normalizer, messages: seq<Message>) returns (updated: seq<Message>)
    ensures updated == Budgeted(norm, messages, 0)
  {
    updated := messages;
    BudgetedLength(norm, messages, 0);
    for idx := 0 to |messages|
      invariant |updated| == |messages|
      invariant forall i | 0 <= i < idx :: updated[i] == Budgeted(norm, messages, 0)[i]
      invariant forall i | idx <= i < |messages| :: updated[i] == messages[i]
    {
      var message := messages[idx];
      var normalized := Normalized(norm, message, idx);
      if normalized.content != message.content {
        updated := updated[idx := normalized];
      }
    }
  }

  /** The five passes in order, and the merge of adjacent user rows after them. */
  method PrepareMessagesForModel(norm: Normalizer, messages: seq<Message>) returns (prepared: seq<Message>)
    ensures prepared == Prepared(norm, messages)
  {
    var updated := StripPlaceholderAssistantMessages(messages);
    updated := StripMalformedToolCalls(updated);
    updated := DropOrphanToolResults(updated);
    updated := BackfillMissingToolResults(updated);
    updated := ApplyToolResultBudget(norm, updated);
    prepared := MergeAdjacentUserMessages(updated);
  }
}
