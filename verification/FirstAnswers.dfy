/** Which tool results are kept, by their positions: the first answer behind a call, and no other. */
module FirstAnswers {
  import opened Transcript
  import opened Selection
  import opened Repair

  ghost predicate Declares(m: Message, id: string) {
    m.role == Assistant && exists k :: 0 <= k < |m.calls| && m.calls[k].Call? && m.calls[k].id == id
  }

  /** The id was called before row `i`, or is among the `declared` ones. */
  ghost predicate CalledBefore(msgs: seq<Message>, i: nat, id: string, declared: set<string>)
    requires i <= |msgs|
  {
    id in declared || exists h :: 0 <= h < i && Declares(msgs[h], id)
  }

  /** Row `i` is a tool result for `id` behind a call of it. */
  ghost predicate AnswersAt(msgs: seq<Message>, i: nat, id: string, declared: set<string>)
    requires i < |msgs|
  {
    id != "" && msgs[i].role == Tool && msgs[i].toolId == id && CalledBefore(msgs, i, id, declared)
  }

  /** Row `i` is the first such result, and the id is not among the `fulfilled` ones. */
  ghost predicate FirstAnswer(msgs: seq<Message>, i: nat, declared: set<string>, fulfilled: set<string>)
    requires i < |msgs|
  {
    && AnswersAt(msgs, i, msgs[i].toolId, declared) && msgs[i].toolId !in fulfilled
    && forall j | 0 <= j < i :: !AnswersAt(msgs, j, msgs[i].toolId, declared)
  }

  // ----- the sets of ids in these terms

  lemma DeclaresId(m: Message, id: string)
    requires id != ""
    ensures Declares(m, id) <==> m.role == Assistant && id in CallIds(m.calls)
  {
    if m.role == Assistant && id in CallIds(m.calls) {
      var c :| c in m.calls && c.Call? && c.id == id;
    }
  }

  lemma {:induction false} CalledIds(msgs: seq<Message>, id: string, declared: set<string>)
    requires id != ""
    ensures id in declared + Declared(msgs) <==> CalledBefore(msgs, |msgs|, id, declared)
  {
    if id in Declared(msgs) {
      var h := DeclaredWitness(msgs, id);
      DeclaresId(msgs[h], id);
    } else {
      forall h | 0 <= h < |msgs| ensures !Declares(msgs[h], id) {
        DeclaresId(msgs[h], id);
        if msgs[h].role == Assistant {
          DeclaredAt(msgs, h);
        }
      }
    }
  }

  lemma {:induction false} AnsweredWitness(msgs: seq<Message>, id: string) returns (i: nat)
    requires id in Answered(msgs)
    ensures i < |msgs| && msgs[i].role == Tool && msgs[i].toolId == id && id != ""
  {
    if msgs[0].role == Tool && msgs[0].toolId == id && id != "" {
      i := 0;
    } else {
      i := AnsweredWitness(msgs[1..], id);
      i := i + 1;
    }
  }

  lemma {:induction false} FirstOf(msgs: seq<Message>, i: nat, declared: set<string>, fulfilled: set<string>)
    returns (j: nat)
    requires i < |msgs| && AnswersAt(msgs, i, msgs[i].toolId, declared) && msgs[i].toolId !in fulfilled
    ensures j <= i && msgs[j].toolId == msgs[i].toolId && FirstAnswer(msgs, j, declared, fulfilled)
  {
    if h :| 0 <= h < i && AnswersAt(msgs, h, msgs[i].toolId, declared) {
      j := FirstOf(msgs, h, declared, fulfilled);
    } else {
      j := i;
    }
  }

  // ----- what is kept

  /** `out` is the rows at the positions `idx`: all rows but the tool rows that are no first answer. */
  ghost predicate KeptAt(msgs: seq<Message>, out: seq<Message>, idx: seq<nat>, declared: set<string>,
                         fulfilled: set<string>) {
    && Rising(idx, |msgs|) && |out| == |idx| && (forall k | 0 <= k < |idx| :: out[k] == msgs[idx[k]])
    && (forall i | 0 <= i < |msgs| :: i in idx <==> msgs[i].role != Tool || FirstAnswer(msgs, i, declared, fulfilled))
  }

  lemma {:induction false} AnsweredKept(msgs: seq<Message>, out: seq<Message>, idx: seq<nat>, declared: set<string>,
                                        fulfilled: set<string>, id: string)
    requires KeptAt(msgs, out, idx, declared, fulfilled) && id != "" && id !in fulfilled
    ensures id in Answered(out) <==> exists j :: 0 <= j < |msgs| && AnswersAt(msgs, j, id, declared)
  {
    if id in Answered(out) {
      var k := AnsweredWitness(out, id);
      assert idx[k] in idx;
      assert AnswersAt(msgs, idx[k], id, declared);
    } else if j :| 0 <= j < |msgs| && AnswersAt(msgs, j, id, declared) {
      var i := FirstOf(msgs, j, declared, fulfilled);
      assert i in idx;
      var k :| 0 <= k < |idx| && idx[k] == i;
      AnsweredAt(out, k);
    }
  }

  lemma StillFirst(msgs: seq<Message>, m: Message, i: nat, declared: set<string>, fulfilled: set<string>)
    requires i < |msgs|
    ensures FirstAnswer(msgs + [m], i, declared, fulfilled) <==> FirstAnswer(msgs, i, declared, fulfilled)
  {
    forall j, id | 0 <= j <= i ensures AnswersAt(msgs + [m], j, id, declared) <==> AnswersAt(msgs, j, id, declared) {
      assert forall h | 0 <= h < j :: (msgs + [m])[h] == msgs[h];
    }
  }

  lemma LastIsFirst(msgs: seq<Message>, m: Message, declared: set<string>, fulfilled: set<string>)
    requires m.role == Tool
    ensures FirstAnswer(msgs + [m], |msgs|, declared, fulfilled)
       <==> m.toolId != "" && m.toolId !in fulfilled && CalledBefore(msgs, |msgs|, m.toolId, declared)
            && !exists j :: 0 <= j < |msgs| && AnswersAt(msgs, j, m.toolId, declared)
  {
    var all := msgs + [m];
    assert all[|msgs|] == m;
    assert CalledBefore(all, |msgs|, m.toolId, declared) <==> CalledBefore(msgs, |msgs|, m.toolId, declared) by {
      assert forall h | 0 <= h < |msgs| :: all[h] == msgs[h];
    }
    forall j | 0 <= j < |msgs|
      ensures AnswersAt(all, j, m.toolId, declared) <==> AnswersAt(msgs, j, m.toolId, declared)
    {
      assert forall h | 0 <= h < j :: all[h] == msgs[h];
      assert all[j] == msgs[j];
    }
  }

  lemma KeptStays(msgs: seq<Message>, out: seq<Message>, idx: seq<nat>, m: Message, declared: set<string>,
                  fulfilled: set<string>)
    requires KeptAt(msgs, out, idx, declared, fulfilled)
    ensures var all := msgs + [m];
            && Rising(idx, |all|) && (forall k | 0 <= k < |idx| :: out[k] == all[idx[k]])
            && |msgs| !in idx
            && (forall i | 0 <= i < |msgs| ::
                  i in idx <==> all[i].role != Tool || FirstAnswer(all, i, declared, fulfilled))
  {
    RisingNext(idx, |msgs|);
    var all := msgs + [m];
    forall i | 0 <= i < |msgs|
      ensures i in idx <==> all[i].role != Tool || FirstAnswer(all, i, declared, fulfilled)
    {
      StillFirst(msgs, m, i, declared, fulfilled);
    }
  }

  lemma KeptSnoc(msgs: seq<Message>, out: seq<Message>, idx: seq<nat>, m: Message, declared: set<string>,
                 fulfilled: set<string>)
    requires KeptAt(msgs, out, idx, declared, fulfilled)
    ensures m.role != Tool || FirstAnswer(msgs + [m], |msgs|, declared, fulfilled) ==>
              KeptAt(msgs + [m], out + [m], idx + [|msgs|], declared, fulfilled)
    ensures !(m.role != Tool || FirstAnswer(msgs + [m], |msgs|, declared, fulfilled)) ==>
              KeptAt(msgs + [m], out, idx, declared, fulfilled)
  {
    KeptStays(msgs, out, idx, m, declared, fulfilled);
    RisingNext(idx, |msgs|);
    assert forall i | 0 <= i < |msgs| :: i in idx + [|msgs|] <==> i in idx;
  }

  /** A further tool row is kept exactly if it is a first answer. */
  lemma {:induction false} NextIsKept(msgs: seq<Message>, out: seq<Message>, idx: seq<nat>, m: Message,
                                      declared: set<string>, fulfilled: set<string>)
    requires KeptAt(msgs, out, idx, declared, fulfilled) && m.role == Tool
    ensures Answers(m, declared + Declared(msgs), fulfilled + Answered(out))
       <==> FirstAnswer(msgs + [m], |msgs|, declared, fulfilled)
  {
    LastIsFirst(msgs, m, declared, fulfilled);
    if m.toolId != "" {
      CalledIds(msgs, m.toolId, declared);
      if m.toolId !in fulfilled {
        AnsweredKept(msgs, out, idx, declared, fulfilled, m.toolId);
      }
    }
  }

  /** For every transcript: dropping orphans keeps every row but the tool rows that are no first answer. */
  lemma {:induction false} ResultsKept(msgs: seq<Message>, declared: set<string>, fulfilled: set<string>)
    returns (idx: seq<nat>)
    ensures KeptAt(msgs, DropOrphans(msgs, declared, fulfilled), idx, declared, fulfilled)
  {
    if msgs == [] {
      idx := [];
    } else {
      var init, m := msgs[..|msgs| - 1], msgs[|msgs| - 1];
      idx := ResultsKept(init, declared, fulfilled);
      assert msgs == init + [m];
      DropSplit(init, [m], declared, fulfilled);
      var out := DropOrphans(init, declared, fulfilled);
      DropCons(m, [], declared + Declared(init), fulfilled + Answered(out));
      assert [m] + [] == [m] && out + [] == out;
      KeptSnoc(init, out, idx, m, declared, fulfilled);
      if m.role == Tool {
        NextIsKept(init, out, idx, m, declared, fulfilled);
      }
      if m.role != Tool || FirstAnswer(msgs, |init|, declared, fulfilled) {
        idx := idx + [|init|];
      }
    }
  }
}
