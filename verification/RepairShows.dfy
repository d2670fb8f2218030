/** What a repaired transcript shows, row by row and field by field: which rows and calls are left, which results
    are shown, and with what content. */
module RepairShows {
  import opened Transcript
  import opened Text
  import opened Selection
  import opened Repair
  import opened Pairing
  import opened MergeUsers
  import opened Requests

  // ----- calls with a usable name

  /** The name of a call is a text that is not empty: that of its function entry, or its own without one. */
  predicate NamedCall(c: ToolCall) {
    c.Call? && if c.fn.Some? then c.fn.value.Named? && c.fn.value.text != "" else c.name.Named? && c.name.text != ""
  }

  /** `kept` holds exactly the calls at the positions `idx`, which are those of the calls with a usable name. */
  ghost predicate NamedAt(calls: seq<ToolCall>, kept: seq<ToolCall>, idx: seq<nat>) {
    && Rising(idx, |calls|) && |kept| == |idx|
    && (forall i | 0 <= i < |calls| :: i in idx <==> NamedCall(calls[i]))
    && (forall k | 0 <= k < |idx| :: kept[k] == calls[idx[k]])
  }

  ghost predicate NamedCalls(calls: seq<ToolCall>, kept: seq<ToolCall>) {
    exists idx: seq<nat> :: NamedAt(calls, kept, idx)
  }

  lemma NamedSnoc(calls: seq<ToolCall>, kept: seq<ToolCall>, idx: seq<nat>, c: ToolCall)
    requires NamedAt(calls, kept, idx)
    ensures NamedCall(c) ==> NamedAt(calls + [c], kept + [c], idx + [|calls|])
    ensures !NamedCall(c) ==> NamedAt(calls + [c], kept, idx)
  {
    RisingNext(idx, |calls|);
  }

  lemma ValidCallsSnoc(calls: seq<ToolCall>, c: ToolCall)
    ensures ValidCalls(calls + [c]) == ValidCalls(calls) + if NamedCall(c) then [c] else []
    decreases |calls|
  {
    var all := calls + [c];
    if calls == [] {
      assert all[1..] == [];
    } else {
      ValidCallsSnoc(calls[1..], c);
      assert all[1..] == calls[1..] + [c];
    }
  }

  /** Exactly the calls with a usable name are kept, in order. */
  lemma {:induction false} CallsKept(calls: seq<ToolCall>) returns (idx: seq<nat>)
    ensures NamedAt(calls, ValidCalls(calls), idx)
  {
    if calls == [] {
      idx := [];
    } else {
      var init, c := calls[..|calls| - 1], calls[|calls| - 1];
      idx := CallsKept(init);
      assert calls == init + [c];
      ValidCallsSnoc(init, c);
      NamedSnoc(init, ValidCalls(init), idx, c);
      if NamedCall(c) {
        idx := idx + [|init|];
      }
    }
  }

  // ----- rows that are left

  /** The row says nothing that a provider accepts: a placeholder without calls, or a row without content that
      had calls, none of them with a usable name. */
  predicate SaysNothing(m: Message) {
    m.role == Assistant &&
    (|| (m.calls == [] && m.content.Str? && Strip(m.content.text) == PLACEHOLDER)
     || (m.calls != [] && (forall i | 0 <= i < |m.calls| :: !NamedCall(m.calls[i]))
         && (m.content == NoContent || m.content == Str("") || m.content == Blocks([]))))
  }

  /** The row `out` is what is left of `m`: everything but calls without a usable name. */
  ghost predicate LeftOf(m: Message, out: Message) {
    && out == m.(calls := out.calls)
    && if m.role == Assistant then NamedCalls(m.calls, out.calls) else out.calls == m.calls
  }

  lemma NoneNamed(calls: seq<ToolCall>)
    ensures ValidCalls(calls) == [] <==> forall i | 0 <= i < |calls| :: !NamedCall(calls[i])
    ensures NamedCalls(calls, ValidCalls(calls))
  {
    var idx := CallsKept(calls);
    assert NamedAt(calls, ValidCalls(calls), idx);
    if idx == [] {
      forall i | 0 <= i < |calls| ensures !NamedCall(calls[i]) {
        assert i !in idx;
      }
    } else {
      assert idx[0] in idx;
    }
  }

  lemma SaysNothingIff(m: Message)
    ensures SaysNothing(m) <==> Omitted(m) || Trimmed(m) == []
  {
    NoneNamed(m.calls);
    if m.role == Assistant && m.calls != [] {
      assert SaysNothing(m) <==> ValidCalls(m.calls) == [] && !Truthy(m.content);
    }
  }

  lemma TrimmedIsLeft(m: Message)
    requires Trimmed(m) != []
    ensures |Trimmed(m)| == 1 && LeftOf(m, Trimmed(m)[0])
  {
    NoneNamed(m.calls);
  }

  lemma TrimmedRow(m: Message)
    ensures SaysNothing(m) ==> Stripped([m]) == []
    ensures !SaysNothing(m) ==> |Stripped([m])| == 1 && LeftOf(m, Stripped([m])[0])
  {
    SaysNothingIff(m);
    StrippedCons(m, []);
    assert [m] + [] == [m] && Trimmed(m) + [] == Trimmed(m);
    if Trimmed(m) != [] {
      TrimmedIsLeft(m);
    }
  }

  ghost predicate LeftAt(msgs: seq<Message>, out: seq<Message>, idx: seq<nat>) {
    && Rising(idx, |msgs|) && |out| == |idx|
    && (forall i | 0 <= i < |msgs| :: i in idx <==> !SaysNothing(msgs[i]))
    && (forall k | 0 <= k < |idx| :: LeftOf(msgs[idx[k]], out[k]))
  }

  lemma LeftSnoc(msgs: seq<Message>, out: seq<Message>, idx: seq<nat>, m: Message, o: Message)
    requires LeftAt(msgs, out, idx)
    ensures SaysNothing(m) ==> LeftAt(msgs + [m], out, idx)
    ensures !SaysNothing(m) && LeftOf(m, o) ==> LeftAt(msgs + [m], out + [o], idx + [|msgs|])
  {
    RisingNext(idx, |msgs|);
  }

  /** For every transcript: stripping leaves out exactly the rows that say nothing; every other row stays in order,
      with its content and with exactly its calls that have a usable name. */
  lemma {:induction false} RowsLeft(msgs: seq<Message>) returns (idx: seq<nat>)
    ensures LeftAt(msgs, Stripped(msgs), idx)
  {
    if msgs == [] {
      idx := [];
    } else {
      var init, m := msgs[..|msgs| - 1], msgs[|msgs| - 1];
      idx := RowsLeft(init);
      assert msgs == init + [m];
      StrippedSplit(init, [m]);
      TrimmedRow(m);
      var piece := Stripped([m]);
      if SaysNothing(m) {
        LeftSnoc(init, Stripped(init), idx, m, m);
      } else {
        assert piece == [piece[0]];
        LeftSnoc(init, Stripped(init), idx, m, piece[0]);
        idx := idx + [|init|];
      }
    }
  }

  // ----- what reaches the request

  /** The rows that are no tool rows, with or without the user rows. */
  function Said(msgs: seq<Message>, users: bool): seq<Message> {
    if msgs == [] then []
    else (if msgs[0].role != Tool && (users || msgs[0].role != User) then [msgs[0]] else []) + Said(msgs[1..], users)
  }

  lemma {:induction false} SaidSplit(a: seq<Message>, b: seq<Message>, users: bool)
    ensures Said(a + b, users) == Said(a, users) + Said(b, users)
  {
    if a == [] {
      assert a + b == b;
    } else {
      assert (a + b)[0] == a[0] && (a + b)[1..] == a[1..] + b;
      SaidSplit(a[1..], b, users);
      var head := if a[0].role != Tool && (users || a[0].role != User) then [a[0]] else [];
      Repair.Assoc(head, Said(a[1..], users), Said(b, users));
    }
  }

  lemma {:induction false} DropSaysTheSame(msgs: seq<Message>, declared: set<string>, fulfilled: set<string>,
                                           users: bool)
    ensures Said(DropOrphans(msgs, declared, fulfilled), users) == Said(msgs, users)
  {
    if msgs != [] {
      var m, rest := msgs[0], msgs[1..];
      if KeepRow(m, declared, fulfilled) {
        var tail := DropOrphans(rest, DeclaredAfter(m, declared), AnsweredAfter(m, fulfilled));
        DropSaysTheSame(rest, DeclaredAfter(m, declared), AnsweredAfter(m, fulfilled), users);
        assert ([m] + tail)[1..] == tail;
      } else {
        DropSaysTheSame(rest, declared, fulfilled, users);
      }
    }
  }

  lemma {:induction false} OwedSaysNothing(calls: seq<ToolCall>, fulfilled: set<string>, users: bool)
    ensures Said(MissingResults(calls, fulfilled), users) == []
  {
    if calls != [] {
      OwedSaysNothing(calls[1..], fulfilled, users);
      var owed, rest := MissingResults(calls, fulfilled), MissingResults(calls[1..], fulfilled);
      assert owed != rest ==> owed[1..] == rest;
    }
  }

  lemma {:induction false} FillSaysTheSame(msgs: seq<Message>, pending: seq<Message>, fulfilled: set<string>,
                                           users: bool)
    requires Said(pending, users) == []
    ensures Said(Fill(msgs, pending, fulfilled), users) == Said(msgs, users)
  {
    if msgs != [] {
      var m, rest := msgs[0], msgs[1..];
      var owed := if m.role == Tool then pending else Owed(m, fulfilled);
      assert msgs == [m] + rest;
      OwedSaysNothing(m.calls, fulfilled, users);
      FillSaysTheSame(rest, owed, fulfilled, users);
      FillCons(m, rest, pending, fulfilled);
      var tail := [m] + Fill(rest, owed, fulfilled);
      assert tail[1..] == Fill(rest, owed, fulfilled);
      SaidSplit(pending, tail, users);
      assert [] + Said(tail, users) == Said(tail, users);
    }
  }

  lemma {:induction false} BudgetSaysTheSame(norm: Normalizer, msgs: seq<Message>, i: nat, users: bool)
    ensures Said(Budgeted(norm, msgs, i), users) == Said(msgs, users)
  {
    if msgs != [] {
      BudgetSaysTheSame(norm, msgs[1..], i + 1, users);
    }
  }

  lemma RepairSaysTheSame(norm: Normalizer, msgs: seq<Message>, users: bool)
    ensures Said(Repaired(norm, msgs), users) == Said(Stripped(msgs), users)
  {
    var kept := DropOrphans(Stripped(msgs), {}, {});
    DropSaysTheSame(Stripped(msgs), {}, {}, users);
    FillSaysTheSame(kept, [], Answered(kept), users);
    BudgetSaysTheSame(norm, Paired(msgs), 0, users);
  }

  lemma {:induction false} SaidOfOthers(msgs: seq<Message>)
    ensures Said(NonUser(msgs), false) == Said(msgs, false)
  {
    if msgs != [] {
      var m, rest := msgs[0], msgs[1..];
      SaidOfOthers(rest);
      assert m.role != User ==> ([m] + NonUser(rest))[1..] == NonUser(rest);
      assert [] + NonUser(rest) == NonUser(rest);
    }
  }

  lemma MergeSaysTheSame(msgs: seq<Message>)
    ensures Said(Merged(msgs), false) == Said(msgs, false)
  {
    MergeKeepsOthers([], msgs);
    assert NonUser([]) + NonUser(msgs) == NonUser(msgs);
    SaidOfOthers(msgs);
    SaidOfOthers(Merged(msgs));
  }

  // ----- the rows of a request, by their positions in the transcript

  /** The row is no tool row, it says something, and it is no user row unless `users`. */
  predicate Speaks(m: Message, users: bool) {
    m.role != Tool && (users || m.role != User) && !SaysNothing(m)
  }

  ghost predicate SaidAt(msgs: seq<Message>, out: seq<Message>, idx: seq<nat>, users: bool) {
    && Rising(idx, |msgs|) && |out| == |idx|
    && (forall i | 0 <= i < |msgs| :: i in idx <==> Speaks(msgs[i], users))
    && (forall k | 0 <= k < |idx| :: LeftOf(msgs[idx[k]], out[k]))
  }

  lemma SaidSnoc(msgs: seq<Message>, out: seq<Message>, idx: seq<nat>, users: bool, m: Message, o: Message)
    requires SaidAt(msgs, out, idx, users)
    ensures !Speaks(m, users) ==> SaidAt(msgs + [m], out, idx, users)
    ensures Speaks(m, users) && LeftOf(m, o) ==> SaidAt(msgs + [m], out + [o], idx + [|msgs|], users)
  {
    RisingNext(idx, |msgs|);
  }

  lemma SaidOfOne(m: Message, users: bool)
    ensures Said(Stripped([m]), users) == if Speaks(m, users) then Stripped([m]) else []
    ensures Speaks(m, users) ==> |Stripped([m])| == 1 && LeftOf(m, Stripped([m])[0])
  {
    TrimmedRow(m);
    if !SaysNothing(m) {
      assert Stripped([m])[1..] == [];
    }
  }

  lemma SaidNext(init: seq<Message>, m: Message, users: bool)
    ensures Said(Stripped(init + [m]), users)
         == Said(Stripped(init), users) + if Speaks(m, users) then Stripped([m]) else []
  {
    StrippedSplit(init, [m]);
    SaidSplit(Stripped(init), Stripped([m]), users);
    SaidOfOne(m, users);
  }

  lemma SaidStep(init: seq<Message>, m: Message, idx: seq<nat>, users: bool) returns (more: seq<nat>)
    requires SaidHere(init, idx, users)
    ensures SaidHere(init + [m], more, users)
  {
    var out, piece := Said(Stripped(init), users), Stripped([m]);
    SaidNext(init, m, users);
    SaidOfOne(m, users);
    if Speaks(m, users) {
      SaidSnoc(init, out, idx, users, m, piece[0]);
      more := idx + [|init|];
      assert piece == [piece[0]];
    } else {
      SaidSnoc(init, out, idx, users, m, m);
      more := idx;
      assert out + [] == out;
    }
  }

  ghost predicate SaidHere(msgs: seq<Message>, idx: seq<nat>, users: bool) {
    SaidAt(msgs, Said(Stripped(msgs), users), idx, users)
  }

  lemma {:induction false} SaidRows(msgs: seq<Message>, users: bool) returns (idx: seq<nat>)
    ensures SaidHere(msgs, idx, users)
    decreases |msgs|
  {
    if msgs == [] {
      idx := [];
    } else {
      var init, m := msgs[..|msgs| - 1], msgs[|msgs| - 1];
      assert msgs == init + [m];
      var before := SaidRows(init, users);
      idx := SaidStep(init, m, before, users);
    }
  }

  /** For every transcript: the rows of its repair that are no tool rows are its rows that say something, in order,
      with their contents and with exactly their calls that have a usable name. */
  lemma RepairShowsEveryText(norm: Normalizer, msgs: seq<Message>) returns (idx: seq<nat>)
    ensures SaidAt(msgs, Said(Repaired(norm, msgs), true), idx, true)
  {
    idx := SaidRows(msgs, true);
    RepairSaysTheSame(norm, msgs, true);
  }

  /** So are the rows of a request that are neither tool rows nor user rows. */
  lemma RequestShowsEveryText(norm: Normalizer, msgs: seq<Message>) returns (idx: seq<nat>)
    ensures SaidAt(msgs, Said(Prepared(norm, msgs), false), idx, false)
  {
    idx := SaidRows(msgs, false);
    RepairSaysTheSame(norm, msgs, false);
    MergeSaysTheSame(Repaired(norm, msgs));
  }
}
