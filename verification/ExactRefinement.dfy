/** Exactly when building on an earlier prepared request gives what preparing the whole transcript gives. */
module ExactRefinement {
  import opened Transcript
  import opened Repair
  import opened Pairing
  import opened MergeUsers
  import opened Requests
  import opened PrepareTwice

  /** No late result reads, once normalized, like the row that was sent in its place. */
  ghost predicate LateResultsDiffer(norm: Normalizer, a: seq<Message>, b: seq<Message>) {
    forall m, p | m in Prepared(norm, a) && p in b && Stands(norm, m, p) :: m.toolId !in OpenIds(a)
  }

  /** The row `m` is what becomes of the result `p`. */
  predicate Stands(norm: Normalizer, m: Message, p: Message) {
    m.role == Tool && p.role == Tool && p.toolId == m.toolId && Normalized(norm, p, 0) == m
  }

  // ----- where a tool row comes from

  lemma {:induction false} AnsweringRow(msgs: seq<Message>, id: string) returns (m: Message)
    requires id in Answered(msgs)
    ensures m in msgs && m.role == Tool && m.toolId == id
  {
    if msgs[0].role == Tool && msgs[0].toolId == id {
      m := msgs[0];
    } else {
      m := AnsweringRow(msgs[1..], id);
      assert msgs == [msgs[0]] + msgs[1..];
    }
  }

  lemma {:induction false} RowAnswers(msgs: seq<Message>, p: Message)
    requires p in msgs && p.role == Tool && p.toolId != ""
    ensures p.toolId in Answered(msgs)
  {
    if msgs[0] != p {
      assert msgs == [msgs[0]] + msgs[1..];
      RowAnswers(msgs[1..], p);
    }
  }

  lemma {:induction false} BudgetKeepsResult(norm: Normalizer, msgs: seq<Message>, idx: nat, p: Message)
    requires p in msgs && p.role == Tool && p.toolId != ""
    ensures Normalized(norm, p, 0) in Budgeted(norm, msgs, idx)
  {
    if msgs[0] != p {
      assert msgs == [msgs[0]] + msgs[1..];
      BudgetKeepsResult(norm, msgs[1..], idx + 1, p);
    }
  }

  lemma {:induction false} BudgetedFrom(norm: Normalizer, msgs: seq<Message>, idx: nat, m: Message) returns (p: Message)
    requires m in Budgeted(norm, msgs, idx) && m.role == Tool && m.toolId != ""
    ensures p in msgs && Stands(norm, m, p)
  {
    if m == Normalized(norm, msgs[0], idx) {
      p := msgs[0];
    } else {
      p := BudgetedFrom(norm, msgs[1..], idx + 1, m);
      assert msgs == [msgs[0]] + msgs[1..];
    }
  }

  lemma {:induction false} OwedAreUnanswered(calls: seq<ToolCall>, fulfilled: set<string>, p: Message)
    requires p in MissingResults(calls, fulfilled)
    ensures p.toolId !in fulfilled
  {
    if p in MissingResults(calls[1..], fulfilled) {
      OwedAreUnanswered(calls[1..], fulfilled, p);
    }
  }

  /** A row with an answered id was there before the filling pass. */
  lemma {:induction false} FilledFrom(msgs: seq<Message>, pending: seq<Message>, fulfilled: set<string>, p: Message)
    requires p in Fill(msgs, pending, fulfilled) && p.toolId in fulfilled && p !in pending
    ensures p in msgs
  {
    if msgs != [] && p != msgs[0] {
      var m, rest := msgs[0], msgs[1..];
      assert msgs == [m] + rest;
      if m.role == Tool {
        FilledFrom(rest, pending, fulfilled, p);
      } else {
        if p in Owed(m, fulfilled) {
          OwedAreUnanswered(m.calls, fulfilled, p);
        }
        FilledFrom(rest, Owed(m, fulfilled), fulfilled, p);
      }
    }
  }

  lemma {:induction false} StrippedFrom(msgs: seq<Message>, p: Message)
    requires p in Stripped(msgs) && p.role == Tool
    ensures p in msgs
  {
    if msgs != [] {
      var m, rest := msgs[0], msgs[1..];
      assert msgs == [m] + rest;
      StrippedCons(m, rest);
      if p in Stripped(rest) {
        StrippedFrom(rest, p);
      }
    }
  }

  lemma PreparedRow(norm: Normalizer, msgs: seq<Message>, m: Message)
    requires m.role == Tool
    ensures m in Prepared(norm, msgs) <==> m in Repaired(norm, msgs)
  {
    var r := Repaired(norm, msgs);
    MergeKeepsOthers([], r);
    assert NonUser(Merged(r)) == NonUser(r);
    SettledByOthers(r, {}, {});
    SettledByOthers(Merged(r), {}, {});
  }

  // ----- an open id in the two requests

  lemma {:induction false} FirstResultStays(msgs: seq<Message>, declared: set<string>, fulfilled: set<string>,
                                            id: string)
    requires id in Answered(msgs) && id in declared && id !in fulfilled && id != ""
    ensures id in Answered(DropOrphans(msgs, declared, fulfilled))
  {
    var m, rest := msgs[0], msgs[1..];
    assert msgs == [m] + rest;
    AnsweredCons(m, rest);
    if KeepRow(m, declared, fulfilled) {
      var d, f := DeclaredAfter(m, declared), AnsweredAfter(m, fulfilled);
      AnsweredCons(m, DropOrphans(rest, d, f));
      if m.role != Tool || m.toolId != id {
        FirstResultStays(rest, d, f, id);
      }
    } else {
      FirstResultStays(rest, declared, fulfilled, id);
    }
  }

  lemma OpenIdIsCalled(a: seq<Message>, id: string)
    requires id in OpenIds(a)
    ensures id != "" && Calls(Stripped(a), id) > 0
  {
    DeclaredNonEmpty(Stripped(a), id);
    CallsDeclared(Stripped(a), id);
  }

  lemma PreparedIsFixed(norm: Normalizer, a: seq<Message>, m: Message)
    requires Idempotent(norm) && m in Prepared(norm, a) && m.role == Tool
    ensures m.toolId != "" && Normalized(norm, m, 0) == m
  {
    PreparedRow(norm, a, m);
    PairedCounts(a);
    AnchoredHaveIds(Paired(a), {});
    BudgetFixes(norm, Paired(a), 0);
  }

  /** What was sent in place of a missing result stays in every request that is built on it. */
  lemma StandInStays(norm: Normalizer, a: seq<Message>, b: seq<Message>, id: string) returns (m: Message)
    requires Idempotent(norm) && NothingLingers(a) && id in OpenIds(a)
    ensures m in Prepared(norm, a) && m.role == Tool && m.toolId == id
    ensures m in Prepared(norm, Prepared(norm, a) + b)
    ensures id in Answered(Kept(Prepared(norm, a) + b))
  {
    var h := Prepared(norm, a);
    OpenIdIsCalled(a, id);
    PreparedCounts(norm, a, id);
    ResultsAnswered(h, id);
    PreparedIsClean(norm, a);
    CleanIsStripped(h);
    DropAnchored(h, {}, {});
    m := AnsweringRow(Kept(h), id);
    DropRows(h, {}, {});
    PreparedIsFixed(norm, a, m);
    KeptSplit(h, b);
    RowAnswers(Kept(h + b), m);
    FillRows(Kept(h + b), [], Answered(Kept(h + b)));
    BudgetKeepsResult(norm, Paired(h + b), 0, m);
    PreparedRow(norm, h + b, m);
  }

  /** A rebuilt request shows a late result as the only row of its id. */
  lemma LateResultShows(norm: Normalizer, a: seq<Message>, b: seq<Message>, m: Message) returns (p: Message)
    requires m.role == Tool && m.toolId in OpenIds(a) && m.toolId in Answered(b)
    requires m in Prepared(norm, a + b)
    ensures p in b && Stands(norm, m, p)
  {
    var id := m.toolId;
    var (d, f) := (Declared(Stripped(a)), Answered(Kept(a)));
    var kept := DropOrphans(Stripped(b), d, f);
    OpenIdIsCalled(a, id);
    PreparedRow(norm, a + b, m);
    p := BudgetedFrom(norm, Paired(a + b), 0, m);
    KeptSplit(a, b);
    StrippedAnswers(b);
    FirstResultStays(Stripped(b), d, f, id);
    AnsweredSplit(Kept(a), kept);
    FilledFrom(Kept(a + b), [], Answered(Kept(a + b)), p);
    if p in Kept(a) {
      RowAnswers(Kept(a), p);
    }
    DropRows(Stripped(b), d, f);
    StrippedFrom(b, p);
  }

  // ----- the three ways to differ

  lemma {:induction false} LateResultDiffers(norm: Normalizer, a: seq<Message>, b: seq<Message>, id: string)
    requires Idempotent(norm) && NothingLingers(a) && LateResultsDiffer(norm, a, b)
    requires id in OpenIds(a) && id in Answered(b)
    ensures Prepared(norm, Prepared(norm, a) + b) != Prepared(norm, a + b)
  {
    var m := StandInStays(norm, a, b, id);
    if m in Prepared(norm, a + b) {
      var p := LateResultShows(norm, a, b, m);
    }
  }

  /** An open id that is called more than once, there or in the new rows, has as many results in a rebuilt
      request and one in a request built on the earlier one. */
  lemma {:induction false} SecondCallDiffers(norm: Normalizer, a: seq<Message>, b: seq<Message>, id: string)
    requires Idempotent(norm) && NothingLingers(a)
    requires id in OpenIds(a) && id !in Answered(b)
    requires Calls(Stripped(a), id) != 1 || id in Declared(Stripped(b))
    ensures Prepared(norm, Prepared(norm, a) + b) != Prepared(norm, a + b)
  {
    var (d, f) := (Declared(Stripped(a)), Answered(Kept(a)));
    var m := StandInStays(norm, a, b, id);
    OpenIdIsCalled(a, id);
    CallsDeclared(Stripped(b), id);
    StrippedSplit(a, b);
    CallsSplit(Stripped(a), Stripped(b), id);
    KeptSplit(a, b);
    StrippedAnswers(b);
    DropAnswered(Stripped(b), d, f);
    AnsweredSplit(Kept(a), DropOrphans(Stripped(b), d, f));
    PreparedCounts(norm, a + b, id);
    PreparedCounts(norm, Prepared(norm, a) + b, id);
  }

  /** A placeholder that lingers is sent, and is gone from a request built on that one. */
  lemma LingeringDiffers(norm: Normalizer, a: seq<Message>, b: seq<Message>)
    requires !NothingLingers(a)
    ensures Prepared(norm, Prepared(norm, a) + b) != Prepared(norm, a + b)
  {
    var h := Prepared(norm, a);
    LingeringShows(norm, a);
    StrippedAssistants(h);
    StrippedSplit(a, b);
    StrippedSplit(h, b);
    AssistantsSplit(Stripped(a), Stripped(b));
    AssistantsSplit(Stripped(h), Stripped(b));
    PreparedCounts(norm, a, "x");
    PreparedCounts(norm, a + b, "x");
    PreparedCounts(norm, h + b, "x");
  }

  /** For every transcript `a` and every delta `b` whose late results differ from what was sent in their
      place: the request built on the prepared `a` is the request built on everything exactly if nothing
      lingers in `a`, no open id was called twice, and the delta neither calls nor answers an open id. */
  lemma {:induction false} RefinementHoldsIff(norm: Normalizer, a: seq<Message>, b: seq<Message>)
    requires Idempotent(norm) && LateResultsDiffer(norm, a, b)
    ensures Prepared(norm, Prepared(norm, a) + b) == Prepared(norm, a + b)
       <==> NothingLingers(a) && UnansweredOnce(a) && Independent(a, b)
  {
    if !NothingLingers(a) {
      LingeringDiffers(norm, a, b);
    } else if UnansweredOnce(a) && Independent(a, b) {
      IncrementalRefinesRebuild(norm, a, b);
    } else {
      var id := Offending(a, b);
      if id in Answered(b) {
        LateResultDiffers(norm, a, b, id);
      } else {
        SecondCallDiffers(norm, a, b, id);
      }
    }
  }

  lemma Offending(a: seq<Message>, b: seq<Message>) returns (id: string)
    requires !(UnansweredOnce(a) && Independent(a, b))
    ensures id in OpenIds(a)
    ensures Calls(Stripped(a), id) != 1 || id in Declared(Stripped(b)) || id in Answered(b)
  {
    if Independent(a, b) {
      id :| id in Declared(Stripped(a)) && id !in Answered(Kept(a)) && Calls(Stripped(a), id) != 1;
    } else {
      id :| id in OpenIds(a) && id in Declared(Stripped(b)) + Answered(b);
    }
  }

  // ----- a late result

  const KEEP: Normalizer := (key, name, content) => content

  /** An assistant row with one usable call, and a row that answers it. */
  predicate Exchange(m: Message, c: ToolCall, r: Message) {
    && m.role == Assistant && m.calls == [c] && ValidName(c) && c.id != ""
    && r.role == Tool && r.toolId == c.id
  }

  lemma ExchangeIds(m: Message, c: ToolCall, r: Message)
    requires Exchange(m, c, r)
    ensures CallIds([c]) == {c.id} && Declared([m]) == {c.id} && Answered([m]) == {}
    ensures Declared([m, r]) == {c.id} && Answered([m, r]) == {c.id}
    ensures Legal([m, r], {}, {}) && Clean([m, r]) && Clean([m])
  {
    assert c in [c];
    assert [m, r][1..] == [r] && [r][1..] == [] && [m][1..] == [] && [c][1..] == [];
    assert ValidCalls([c]) == [c];
  }

  lemma ExchangeStays(m: Message, c: ToolCall, r: Message)
    requires Exchange(m, c, r)
    ensures Prepared(KEEP, [m, r]) == [m, r]
  {
    ExchangeIds(m, c, r);
    SettledStays(KEEP, [m, r]);
    ApartFixed([], [m, r]);
    assert [] + [m, r] == [m, r];
  }

  lemma CallAloneIsFilled(m: Message, c: ToolCall)
    requires m.role == Assistant && m.calls == [c] && ValidName(c) && c.id != ""
    ensures Prepared(KEEP, [m]) == [m, SyntheticRow(c)]
  {
    var s := SyntheticRow(c);
    ExchangeIds(m, c, s);
    CleanIsStripped([m]);
    assert [m][1..] == [] && [c][1..] == [];
    assert DropOrphans([m], {}, {}) == [m];
    assert MissingResults([c], {}) == [s];
    assert Fill([m], [], {}) == [m] + Fill([], [s], {});
    assert Backfilled([m]) == [m, s];
    assert Paired([m]) == [m, s];
    FixedIsBudgeted(KEEP, [m, s], 0);
    ApartFixed([], [m, s]);
    assert [] + [m, s] == [m, s];
  }

  lemma SecondResultIsDropped(m: Message, c: ToolCall, s: Message, r: Message)
    requires Exchange(m, c, s) && Exchange(m, c, r)
    ensures Prepared(KEEP, [m, s] + [r]) == [m, s]
  {
    var all := [m, s] + [r];
    ExchangeIds(m, c, s);
    CleanIsStripped(all);
    assert all[1..] == [s, r] && [s, r][1..] == [r] && [r][1..] == [];
    assert DropOrphans([r], {c.id}, {c.id}) == [];
    assert DropOrphans([s, r], {c.id}, {}) == [s];
    assert DropOrphans(all, {}, {}) == [m, s];
    FillComplete([m, s], Answered([m, s]));
    FixedIsBudgeted(KEEP, [m, s], 0);
    ApartFixed([], [m, s]);
    assert [] + [m, s] == [m, s];
  }

  /** A real result that arrives after its call was sent alone is lost: the accepted rows already hold a
      synthetic one, while a rebuilt request shows the real one. */
  lemma LateResultIsLost(m: Message, c: ToolCall, r: Message)
    requires Exchange(m, c, r) && r != SyntheticRow(c)
    ensures OpenIds([m]) == {c.id} && !Independent([m], [r])
    ensures Prepared(KEEP, Prepared(KEEP, [m]) + [r]) == [m, SyntheticRow(c)]
    ensures Prepared(KEEP, [m] + [r]) == [m, r] != Prepared(KEEP, Prepared(KEEP, [m]) + [r])
  {
    var s := SyntheticRow(c);
    ExchangeIds(m, c, r);
    CleanIsStripped([m]);
    DropKeepsLegal([m], {}, {});
    CallAloneIsFilled(m, c);
    SecondResultIsDropped(m, c, s, r);
    ExchangeStays(m, c, r);
    assert [m] + [r] == [m, r];
  }
}
