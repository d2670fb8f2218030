/** Which tool results a request shows, and with what content, by the positions and fields of the raw rows. */
module ResultsShown {
  import opened Transcript
  import opened Selection
  import opened Repair
  import opened Pairing
  import opened Requests
  import opened PrepareTwice
  import opened ExactRefinement
  import opened RepairShows
  import opened FirstAnswers

  /** The row has a call of the id with a usable name. */
  ghost predicate UsablyCalls(m: Message, id: string) {
    m.role == Assistant && exists k :: 0 <= k < |m.calls| && NamedCall(m.calls[k]) && m.calls[k].id == id
  }

  /** Row `i` is a tool result for `id` behind a usable call of it. */
  ghost predicate ResultAt(msgs: seq<Message>, i: nat, id: string)
    requires i < |msgs|
  {
    id != "" && msgs[i].role == Tool && msgs[i].toolId == id && exists h :: 0 <= h < i && UsablyCalls(msgs[h], id)
  }

  /** And the first one. */
  ghost predicate FirstResult(msgs: seq<Message>, i: nat)
    requires i < |msgs|
  {
    ResultAt(msgs, i, msgs[i].toolId) && forall j | 0 <= j < i :: !ResultAt(msgs, j, msgs[i].toolId)
  }

  // ----- positions behind the stripping passes

  lemma CallsLeft(m: Message, out: Message, id: string)
    requires LeftOf(m, out)
    ensures UsablyCalls(m, id) <==> Declares(out, id)
  {
    if m.role == Assistant {
      var idx :| NamedAt(m.calls, out.calls, idx);
      if UsablyCalls(m, id) {
        var k :| 0 <= k < |m.calls| && NamedCall(m.calls[k]) && m.calls[k].id == id;
        assert k in idx;
        var p :| 0 <= p < |idx| && idx[p] == k;
        assert out.calls[p].Call? && out.calls[p].id == id;
      }
      if Declares(out, id) {
        var p :| 0 <= p < |out.calls| && out.calls[p].Call? && out.calls[p].id == id;
        assert idx[p] in idx;
      }
    }
  }

  lemma SilentCallsNothing(m: Message, id: string)
    requires SaysNothing(m)
    ensures !UsablyCalls(m, id)
  {
  }

  lemma PositionOf(msgs: seq<Message>, out: seq<Message>, idx: seq<nat>, i: nat) returns (p: nat)
    requires LeftAt(msgs, out, idx) && i < |msgs| && !SaysNothing(msgs[i])
    ensures p < |idx| && idx[p] == i && LeftOf(msgs[i], out[p])
  {
    assert i in idx;
    p :| 0 <= p < |idx| && idx[p] == i;
  }

  lemma CalledInFront(msgs: seq<Message>, out: seq<Message>, idx: seq<nat>, p: nat, id: string)
    requires LeftAt(msgs, out, idx) && p < |idx| && CalledBefore(out, p, id, {})
    ensures exists h :: 0 <= h < idx[p] && UsablyCalls(msgs[h], id)
  {
    var q :| 0 <= q < p && Declares(out[q], id);
    CallsLeft(msgs[idx[q]], out[q], id);
  }

  lemma CalledStays(msgs: seq<Message>, out: seq<Message>, idx: seq<nat>, p: nat, id: string, h: nat)
    requires LeftAt(msgs, out, idx) && p < |idx| && h < idx[p] && UsablyCalls(msgs[h], id)
    ensures CalledBefore(out, p, id, {})
  {
    if SaysNothing(msgs[h]) {
      SilentCallsNothing(msgs[h], id);
    }
    var q := PositionOf(msgs, out, idx, h);
    CallsLeft(msgs[h], out[q], id);
  }

  lemma CalledLeft(msgs: seq<Message>, out: seq<Message>, idx: seq<nat>, p: nat, id: string)
    requires LeftAt(msgs, out, idx) && p < |idx|
    ensures CalledBefore(out, p, id, {}) <==> exists h :: 0 <= h < idx[p] && UsablyCalls(msgs[h], id)
  {
    if CalledBefore(out, p, id, {}) {
      CalledInFront(msgs, out, idx, p, id);
    }
    if h :| 0 <= h < idx[p] && UsablyCalls(msgs[h], id) {
      CalledStays(msgs, out, idx, p, id, h);
    }
  }

  lemma AnswerLeft(msgs: seq<Message>, out: seq<Message>, idx: seq<nat>, p: nat, id: string)
    requires LeftAt(msgs, out, idx) && p < |idx|
    ensures AnswersAt(out, p, id, {}) <==> ResultAt(msgs, idx[p], id)
  {
    CalledLeft(msgs, out, idx, p, id);
    assert LeftOf(msgs[idx[p]], out[p]);
  }

  lemma FirstStays(msgs: seq<Message>, out: seq<Message>, idx: seq<nat>, p: nat)
    requires LeftAt(msgs, out, idx) && p < |idx| && FirstResult(msgs, idx[p])
    ensures FirstAnswer(out, p, {}, {})
  {
    var id := msgs[idx[p]].toolId;
    assert LeftOf(msgs[idx[p]], out[p]);
    AnswerLeft(msgs, out, idx, p, id);
    forall q | 0 <= q < p ensures !AnswersAt(out, q, id, {}) {
      AnswerLeft(msgs, out, idx, q, id);
    }
  }

  lemma FirstWas(msgs: seq<Message>, out: seq<Message>, idx: seq<nat>, p: nat)
    requires LeftAt(msgs, out, idx) && p < |idx| && FirstAnswer(out, p, {}, {})
    ensures FirstResult(msgs, idx[p])
  {
    var id := msgs[idx[p]].toolId;
    assert LeftOf(msgs[idx[p]], out[p]);
    AnswerLeft(msgs, out, idx, p, id);
    forall j | 0 <= j < idx[p] ensures !ResultAt(msgs, j, id) {
      if msgs[j].role == Tool {
        var q := PositionOf(msgs, out, idx, j);
        AnswerLeft(msgs, out, idx, q, id);
      }
    }
  }

  /** A raw tool row is kept exactly if it is the first result behind a usable call. */
  lemma {:induction false} FirstResultIsKept(msgs: seq<Message>, i: nat)
    requires i < |msgs| && FirstResult(msgs, i)
    ensures msgs[i] in Kept(msgs)
  {
    var idx := RowsLeft(msgs);
    var out := Stripped(msgs);
    assert i in idx;
    var p :| 0 <= p < |idx| && idx[p] == i;
    FirstStays(msgs, out, idx, p);
    var kept := ResultsKept(out, {}, {});
    assert LeftOf(msgs[i], out[p]);
    assert p in kept;
    var q :| 0 <= q < |kept| && kept[q] == p;
  }

  lemma {:induction false} KeptIsFirstResult(msgs: seq<Message>, m: Message) returns (i: nat)
    requires m in Kept(msgs) && m.role == Tool
    ensures i < |msgs| && msgs[i] == m && FirstResult(msgs, i)
  {
    var idx := RowsLeft(msgs);
    var out := Stripped(msgs);
    var kept := ResultsKept(out, {}, {});
    var q :| 0 <= q < |kept| && Kept(msgs)[q] == m;
    assert kept[q] in kept;
    i := idx[kept[q]];
    assert LeftOf(msgs[i], out[kept[q]]);
    FirstWas(msgs, out, idx, kept[q]);
  }

  // ----- what the request shows of a result

  /** The row `shown` is the result `m` under its own id and name, with the content that the normalizer makes of it. */
  predicate Shows(norm: Normalizer, shown: Message, m: Message) {
    shown == m.(content := norm(OfCall(m.toolId), if m.name == "" then "tool" else m.name, m.content))
  }

  /** For every transcript: the first result behind a usable call is in the request, normalized under its id and
      name, and no other row there has this id. */
  lemma {:induction false} FirstResultIsShown(norm: Normalizer, msgs: seq<Message>, i: nat)
    requires i < |msgs| && FirstResult(msgs, i)
    ensures exists m :: m in Prepared(norm, msgs) && Shows(norm, m, msgs[i])
    ensures Results(Prepared(norm, msgs), msgs[i].toolId) == 1
    ensures forall m | m in Prepared(norm, msgs) && m.role == Tool && m.toolId == msgs[i].toolId ::
              Shows(norm, m, msgs[i])
  {
    var p, shown := msgs[i], Normalized(norm, msgs[i], 0);
    FirstResultIsKept(msgs, i);
    RowAnswers(Kept(msgs), p);
    PreparedCounts(norm, msgs, p.toolId);
    FillRows(Kept(msgs), [], Answered(Kept(msgs)));
    BudgetKeepsResult(norm, Paired(msgs), 0, p);
    PreparedRow(norm, msgs, shown);
    assert Shows(norm, shown, p);
    forall m | m in Prepared(norm, msgs) && m.role == Tool && m.toolId == p.toolId ensures Shows(norm, m, p) {
      OnlyRow(Prepared(norm, msgs), p.toolId, m, shown);
    }
  }

  lemma {:induction false} OnlyRow(msgs: seq<Message>, id: string, m: Message, n: Message)
    requires Results(msgs, id) == 1 && m in msgs && n in msgs
    requires m.role == Tool && m.toolId == id && n.role == Tool && n.toolId == id
    ensures m == n
  {
    var rest := msgs[1..];
    assert msgs == [msgs[0]] + rest;
    if msgs[0].role == Tool && msgs[0].toolId == id {
      NoRow(rest, id);
    } else {
      OnlyRow(rest, id, m, n);
    }
  }

  lemma {:induction false} NoRow(msgs: seq<Message>, id: string)
    requires Results(msgs, id) == 0
    ensures forall m | m in msgs :: !(m.role == Tool && m.toolId == id)
  {
    if msgs != [] {
      NoRow(msgs[1..], id);
      assert msgs == [msgs[0]] + msgs[1..];
    }
  }

  // ----- synthetic results

  /** The text of a name field. */
  function NameText(c: ToolCall): string {
    match c
    case Call(_, Some(Named(text)), _) => text
    case Call(_, Some(NonText(shown)), _) => shown
    case _ => ""
  }

  /** `rows` are synthetic results for exactly the calls at the positions `idx`: those with an id that is not
      answered. */
  ghost predicate OwedAt(calls: seq<ToolCall>, rows: seq<Message>, idx: seq<nat>, answered: set<string>) {
    && Rising(idx, |calls|) && |rows| == |idx|
    && (forall i | 0 <= i < |calls| :: i in idx <==> calls[i].Call? && calls[i].id != "" && calls[i].id !in answered)
    && (forall k | 0 <= k < |idx| :: calls[idx[k]].Call? &&
          rows[k] == Message(Tool, Str(BACKFILL_CONTENT), [], calls[idx[k]].id, NameText(calls[idx[k]]), false,
                             NO_META))
  }

  lemma {:induction false} MissingSnoc(calls: seq<ToolCall>, c: ToolCall, answered: set<string>)
    ensures MissingResults(calls + [c], answered)
         == MissingResults(calls, answered)
            + if c.Call? && c.id != "" && c.id !in answered then [SyntheticRow(c)] else []
    decreases |calls|
  {
    var all := calls + [c];
    if calls == [] {
      assert all[1..] == [];
    } else {
      MissingSnoc(calls[1..], c, answered);
      assert all[0] == calls[0] && all[1..] == calls[1..] + [c];
      var due := calls[0].Call? && calls[0].id != "" && calls[0].id !in answered;
      Repair.Assoc(if due then [SyntheticRow(calls[0])] else [], MissingResults(calls[1..], answered),
                   if c.Call? && c.id != "" && c.id !in answered then [SyntheticRow(c)] else []);
    }
  }

  lemma OwedSnoc(calls: seq<ToolCall>, rows: seq<Message>, idx: seq<nat>, answered: set<string>, c: ToolCall)
    requires OwedAt(calls, rows, idx, answered)
    ensures c.Call? && c.id != "" && c.id !in answered ==>
              OwedAt(calls + [c], rows + [SyntheticRow(c)], idx + [|calls|], answered)
    ensures !(c.Call? && c.id != "" && c.id !in answered) ==> OwedAt(calls + [c], rows, idx, answered)
  {
    RisingNext(idx, |calls|);
  }

  /** One synthetic result for every call whose id is not answered, in call order, under its id and name. */
  lemma {:induction false} OwedRowsAre(calls: seq<ToolCall>, answered: set<string>) returns (idx: seq<nat>)
    ensures OwedAt(calls, MissingResults(calls, answered), idx, answered)
  {
    if calls == [] {
      idx := [];
    } else {
      var init, c := calls[..|calls| - 1], calls[|calls| - 1];
      idx := OwedRowsAre(init, answered);
      assert calls == init + [c];
      MissingSnoc(init, c, answered);
      OwedSnoc(init, MissingResults(init, answered), idx, answered, c);
      if c.Call? && c.id != "" && c.id !in answered {
        idx := idx + [|init|];
      }
    }
  }

  // ----- every result that is shown

  ghost predicate StandsIn(p: Message, msgs: seq<Message>, answered: set<string>) {
    exists h, k :: 0 <= h < |msgs| && msgs[h].role == Assistant && 0 <= k < |msgs[h].calls|
      && Unanswered(msgs[h].calls[k], answered) && p == SyntheticRow(msgs[h].calls[k])
  }

  predicate Unanswered(c: ToolCall, answered: set<string>) {
    c.Call? && c.id != "" && c.id !in answered
  }

  lemma {:induction false} OwedFor(calls: seq<ToolCall>, answered: set<string>, p: Message) returns (k: nat)
    requires p in MissingResults(calls, answered)
    ensures k < |calls| && Unanswered(calls[k], answered) && p == SyntheticRow(calls[k])
  {
    if Unanswered(calls[0], answered) && p == SyntheticRow(calls[0]) {
      k := 0;
    } else {
      k := OwedFor(calls[1..], answered, p);
      k := k + 1;
    }
  }

  lemma StandsFurther(p: Message, m: Message, rest: seq<Message>, answered: set<string>)
    requires StandsIn(p, rest, answered)
    ensures StandsIn(p, [m] + rest, answered)
  {
    var h, k :| 0 <= h < |rest| && rest[h].role == Assistant && 0 <= k < |rest[h].calls|
      && Unanswered(rest[h].calls[k], answered) && p == SyntheticRow(rest[h].calls[k]);
    assert ([m] + rest)[h + 1] == rest[h];
  }

  lemma {:induction false} FilledRow(msgs: seq<Message>, pending: seq<Message>, answered: set<string>, p: Message)
    requires p in Fill(msgs, pending, answered) && p !in msgs && p !in pending
    ensures StandsIn(p, msgs, answered)
  {
    if msgs != [] {
      var m, rest := msgs[0], msgs[1..];
      assert msgs == [m] + rest;
      FillCons(m, rest, pending, answered);
      var owed := if m.role == Tool then pending else Owed(m, answered);
      if p in owed && m.role == Assistant {
        var k := OwedFor(m.calls, answered, p);
        assert msgs[0] == m;
      } else {
        FilledRow(rest, owed, answered, p);
        StandsFurther(p, m, rest, answered);
      }
    }
  }

  /** The row is a synthetic result for a usable call that no result answers. */
  ghost predicate Synthetic(norm: Normalizer, m: Message, msgs: seq<Message>) {
    && (exists h, k :: 0 <= h < |msgs| && msgs[h].role == Assistant && 0 <= k < |msgs[h].calls|
          && NamedCall(msgs[h].calls[k]) && msgs[h].calls[k].id == m.toolId && m.name == NameText(msgs[h].calls[k]))
    && (forall i | 0 <= i < |msgs| :: !ResultAt(msgs, i, m.toolId))
    && m.content == norm(OfCall(m.toolId), if m.name == "" then "tool" else m.name, Str(BACKFILL_CONTENT))
  }

  lemma {:induction false} NoResultKept(msgs: seq<Message>, id: string)
    requires id != "" && id !in Answered(Kept(msgs))
    ensures forall i | 0 <= i < |msgs| :: !ResultAt(msgs, i, id)
  {
    forall i | 0 <= i < |msgs| ensures !ResultAt(msgs, i, id) {
      if ResultAt(msgs, i, id) {
        var j := FirstResultOf(msgs, i);
        FirstResultIsKept(msgs, j);
        RowAnswers(Kept(msgs), msgs[j]);
      }
    }
  }

  lemma {:induction false} FirstResultOf(msgs: seq<Message>, i: nat) returns (j: nat)
    requires i < |msgs| && ResultAt(msgs, i, msgs[i].toolId)
    ensures j <= i && msgs[j].toolId == msgs[i].toolId && FirstResult(msgs, j)
  {
    if h :| 0 <= h < i && ResultAt(msgs, h, msgs[i].toolId) {
      j := FirstResultOf(msgs, h);
    } else {
      j := i;
    }
  }

  lemma {:induction false} SyntheticCall(msgs: seq<Message>, p: Message) returns (h: nat, k: nat)
    requires StandsIn(p, Kept(msgs), Answered(Kept(msgs)))
    ensures h < |msgs| && msgs[h].role == Assistant && k < |msgs[h].calls|
    ensures NamedCall(msgs[h].calls[k]) && p == SyntheticRow(msgs[h].calls[k]) && p.toolId != ""
    ensures p.toolId !in Answered(Kept(msgs))
  {
    var g, q :| 0 <= g < |Kept(msgs)| && Kept(msgs)[g].role == Assistant && 0 <= q < |Kept(msgs)[g].calls|
      && Unanswered(Kept(msgs)[g].calls[q], Answered(Kept(msgs))) && p == SyntheticRow(Kept(msgs)[g].calls[q]);
    var idx := RowsLeft(msgs);
    var kept := ResultsKept(Stripped(msgs), {}, {});
    h := idx[kept[g]];
    assert LeftOf(msgs[h], Stripped(msgs)[kept[g]]);
    var at :| NamedAt(msgs[h].calls, Kept(msgs)[g].calls, at);
    k := at[q];
    assert k in at;
  }

  /** For every transcript: each tool row of the request is the first result behind a usable call, normalized, or a
      synthetic result for a usable call that has none. */
  lemma {:induction false} EveryResultIsExplained(norm: Normalizer, msgs: seq<Message>, m: Message)
    requires m in Prepared(norm, msgs) && m.role == Tool
    ensures (exists i :: 0 <= i < |msgs| && FirstResult(msgs, i) && Shows(norm, m, msgs[i])) || Synthetic(norm, m, msgs)
  {
    PreparedRow(norm, msgs, m);
    PairedCounts(msgs);
    AnchoredHaveIds(Paired(msgs), {});
    BudgetKeepsIds(norm, Paired(msgs), 0);
    var p := BudgetedFrom(norm, Paired(msgs), 0, m);
    if p in Kept(msgs) {
      var i := KeptIsFirstResult(msgs, p);
      assert Shows(norm, m, msgs[i]);
    } else {
      FilledRow(Kept(msgs), [], Answered(Kept(msgs)), p);
      var h, k := SyntheticCall(msgs, p);
      NoResultKept(msgs, p.toolId);
    }
  }

  lemma {:induction false} BudgetKeepsIds(norm: Normalizer, msgs: seq<Message>, idx: nat)
    requires AllHaveIds(msgs)
    ensures AllHaveIds(Budgeted(norm, msgs, idx))
  {
    if msgs != [] {
      assert msgs == [msgs[0]] + msgs[1..];
      BudgetKeepsIds(norm, msgs[1..], idx + 1);
    }
  }
}
