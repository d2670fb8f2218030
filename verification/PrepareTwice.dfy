/** When preparing a prepared transcript changes nothing: exactly when nothing lingers and no id that
    has no real result is declared twice. */
module PrepareTwice {
  import opened Transcript
  import opened Repair
  import opened Pairing
  import opened MergeUsers
  import opened Requests

  function Assistants(msgs: seq<Message>): nat {
    if msgs == [] then 0 else (if msgs[0].role == Assistant then 1 else 0) + Assistants(msgs[1..])
  }

  lemma {:induction false} AssistantsSplit(a: seq<Message>, b: seq<Message>)
    ensures Assistants(a + b) == Assistants(a) + Assistants(b)
  {
    if a == [] {
      assert a + b == b;
    } else {
      assert (a + b)[1..] == a[1..] + b;
      AssistantsSplit(a[1..], b);
    }
  }

  /** Stripping loses an assistant row when one is omitted. */
  lemma {:induction false} StrippedAssistants(msgs: seq<Message>)
    ensures Assistants(Stripped(msgs)) <= Assistants(msgs)
    ensures (exists m :: m in msgs && Omitted(m)) ==> Assistants(Stripped(msgs)) < Assistants(msgs)
  {
    if msgs != [] {
      var m, rest := msgs[0], msgs[1..];
      assert msgs == [m] + rest;
      StrippedCons(m, rest);
      StrippedAssistants(rest);
      var head := if Omitted(m) then [] else Trimmed(m);
      AssistantsSplit(head, Stripped(rest));
      assert head != [] ==> head[1..] == [];
    }
  }

  /** A row that lingers leaves an omitted row behind. */
  lemma {:induction false} LingeringIsLeft(msgs: seq<Message>)
    requires !NothingLingers(msgs)
    ensures exists m :: m in Stripped(msgs) && Omitted(m)
  {
    var m, rest := msgs[0], msgs[1..];
    assert msgs == [m] + rest;
    StrippedCons(m, rest);
    if Lingers(m) {
      StrippedRow(m);
      assert m.(calls := []) in Stripped(msgs);
    } else {
      LingeringIsLeft(rest);
      var o :| o in Stripped(rest) && Omitted(o);
      assert o in Stripped(msgs);
    }
  }

  lemma {:induction false} DropKeepsAssistants(msgs: seq<Message>, declared: set<string>, fulfilled: set<string>)
    ensures Assistants(DropOrphans(msgs, declared, fulfilled)) == Assistants(msgs)
  {
    if msgs != [] {
      var m, rest := msgs[0], msgs[1..];
      assert msgs == [m] + rest;
      DropCons(m, rest, declared, fulfilled);
      if KeepRow(m, declared, fulfilled) {
        var d, f := DeclaredAfter(m, declared), AnsweredAfter(m, fulfilled);
        DropKeepsAssistants(rest, d, f);
        AssistantsSplit([m], DropOrphans(rest, d, f));
        AssistantsSplit([m], rest);
      } else {
        DropKeepsAssistants(rest, declared, fulfilled);
      }
    }
  }

  lemma {:induction false} OwedNoAssistants(calls: seq<ToolCall>, fulfilled: set<string>)
    ensures Assistants(MissingResults(calls, fulfilled)) == 0
  {
    if calls != [] {
      OwedNoAssistants(calls[1..], fulfilled);
      var missing := calls[0].Call? && calls[0].id != "" && calls[0].id !in fulfilled;
      AssistantsSplit(if missing then [SyntheticRow(calls[0])] else [],
                      MissingResults(calls[1..], fulfilled));
    }
  }

  lemma {:induction false} FillKeepsAssistants(msgs: seq<Message>, pending: seq<Message>, fulfilled: set<string>)
    requires Assistants(pending) == 0
    ensures Assistants(Fill(msgs, pending, fulfilled)) == Assistants(msgs)
  {
    if msgs != [] {
      var m, rest := msgs[0], msgs[1..];
      assert msgs == [m] + rest;
      FillCons(m, rest, pending, fulfilled);
      OwedNoAssistants(m.calls, fulfilled);
      var owed := if m.role == Tool then pending else Owed(m, fulfilled);
      FillKeepsAssistants(rest, owed, fulfilled);
      AssistantsSplit([m], Fill(rest, owed, fulfilled));
      AssistantsSplit([m], rest);
      AssistantsSplit(pending, [m] + Fill(rest, owed, fulfilled));
    }
  }

  lemma {:induction false} BudgetKeepsCounts(norm: Normalizer, msgs: seq<Message>, idx: nat, id: string,
                                             declared: set<string>)
    ensures var r := Budgeted(norm, msgs, idx);
            && Assistants(r) == Assistants(msgs) && Results(r, id) == Results(msgs, id)
            && Calls(r, id) == Calls(msgs, id)
            && (Anchored(r, declared) <==> Anchored(msgs, declared))
  {
    if msgs != [] {
      var r := Budgeted(norm, msgs, idx);
      assert r[1..] == Budgeted(norm, msgs[1..], idx + 1);
      BudgetKeepsCounts(norm, msgs[1..], idx + 1, id, DeclaredAfter(msgs[0], declared));
    }
  }

  lemma {:induction false} OthersKeepCounts(msgs: seq<Message>, id: string, declared: set<string>)
    ensures var r := NonUser(msgs);
            && Assistants(r) == Assistants(msgs) && Results(r, id) == Results(msgs, id)
            && Calls(r, id) == Calls(msgs, id)
            && (Anchored(r, declared) <==> Anchored(msgs, declared))
  {
    if msgs != [] {
      var m, rest := msgs[0], msgs[1..];
      assert NonUser(msgs) == if m.role == User then NonUser(rest) else [m] + NonUser(rest);
      assert m.role != User ==> NonUser(msgs)[1..] == NonUser(rest);
      OthersKeepCounts(rest, id, DeclaredAfter(m, declared));
    }
  }

  /** Assistant rows, results and calls of a prepared transcript, for every input. */
  lemma PreparedCounts(norm: Normalizer, msgs: seq<Message>, id: string)
    requires id != ""
    ensures var h := Prepared(norm, msgs);
            && Assistants(h) == Assistants(Stripped(msgs)) && Anchored(h, {})
            && Calls(h, id) == Calls(Stripped(msgs), id)
            && Results(h, id) == if id in Answered(Kept(msgs)) then 1 else Calls(Stripped(msgs), id)
  {
    var r := Repaired(norm, msgs);
    MergeKeepsOthers([], r);
    assert NonUser(Merged(r)) == NonUser(r);
    OthersKeepCounts(r, id, {});
    OthersKeepCounts(Merged(r), id, {});
    BudgetKeepsCounts(norm, Paired(msgs), 0, id, {});
    PairedCounts(msgs);
    DropKeepsAssistants(Stripped(msgs), {}, {});
    FillKeepsAssistants(Kept(msgs), [], Answered(Kept(msgs)));
  }

  /** The omitted row that a lingering one leaves is still there in the prepared transcript. */
  lemma LingeringShows(norm: Normalizer, msgs: seq<Message>)
    requires !NothingLingers(msgs)
    ensures exists m :: m in Prepared(norm, msgs) && Omitted(m)
  {
    LingeringIsLeft(msgs);
    var o :| o in Stripped(msgs) && Omitted(o);
    DropRows(Stripped(msgs), {}, {});
    FillRows(Kept(msgs), [], Answered(Kept(msgs)));
    BudgetKeepsOthers(norm, Paired(msgs), 0, o);
    var r := Repaired(norm, msgs);
    MergeKeepsOthers([], r);
    assert NonUser(Merged(r)) == NonUser(r);
    SettledByOthers(r, {}, {});
    SettledByOthers(Merged(r), {}, {});
    assert o in NonUser(r);
  }

  lemma {:induction false} BudgetKeepsOthers(norm: Normalizer, msgs: seq<Message>, idx: nat, m: Message)
    requires m in msgs && m.role != Tool
    ensures m in Budgeted(norm, msgs, idx)
  {
    if msgs[0] != m {
      assert msgs == [msgs[0]] + msgs[1..];
      BudgetKeepsOthers(norm, msgs[1..], idx + 1, m);
    }
  }

  /** Preparing twice is preparing once exactly under the two conditions of the refinement. */
  lemma PreparedTwice(norm: Normalizer, msgs: seq<Message>)
    requires Idempotent(norm)
    ensures Prepared(norm, Prepared(norm, msgs)) == Prepared(norm, msgs)
       <==> NothingLingers(msgs) && UnansweredOnce(msgs)
  {
    var h := Prepared(norm, msgs);
    if NothingLingers(msgs) && UnansweredOnce(msgs) {
      RepairSettles(norm, msgs);
      MergeKeepsSettled(norm, Repaired(norm, msgs));
      SettledStays(norm, h);
      MergeAbsorbs(Repaired(norm, msgs), []);
      assert h + [] == h && Repaired(norm, msgs) + [] == Repaired(norm, msgs);
    } else if !NothingLingers(msgs) {
      LingeringShows(norm, msgs);
      StrippedAssistants(h);
      PreparedCounts(norm, h, "x");
    } else {
      DoubleCallChanges(norm, msgs);
    }
  }

  lemma PreparedIsClean(norm: Normalizer, msgs: seq<Message>)
    requires NothingLingers(msgs)
    ensures Clean(Prepared(norm, msgs))
  {
    var r := Repaired(norm, msgs);
    PairedIsClean(msgs);
    BudgetKeepsPairs(norm, Paired(msgs), 0, {}, {});
    MergeKeepsOthers([], r);
    assert NonUser(Merged(r)) == NonUser(r);
    SettledByOthers(r, {}, {});
    SettledByOthers(Merged(r), {}, {});
    forall m | m in Merged(r) ensures CleanRow(m) {
      if m.role != User {
        assert m in NonUser(Merged(r)) && m in r;
      }
    }
  }

  /** An unanswered id that is declared twice gets two results, and the next repair drops one. */
  lemma DoubleCallChanges(norm: Normalizer, msgs: seq<Message>)
    requires NothingLingers(msgs) && !UnansweredOnce(msgs)
    ensures Prepared(norm, Prepared(norm, msgs)) != Prepared(norm, msgs)
  {
    var h := Prepared(norm, msgs);
    var id :| id in Declared(Stripped(msgs)) && id !in Answered(Kept(msgs)) && Calls(Stripped(msgs), id) != 1;
    DeclaredNonEmpty(Stripped(msgs), id);
    CallsDeclared(Stripped(msgs), id);
    PreparedCounts(norm, msgs, id);
    assert Results(h, id) >= 2;
    ResultsAnswered(h, id);
    PreparedCounts(norm, h, id);
    PreparedIsClean(norm, msgs);
    CleanIsStripped(h);
    DropAnchored(h, {}, {});
  }
}
