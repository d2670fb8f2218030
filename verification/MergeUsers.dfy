/** Merging adjacent user rows in the model-facing copy, with their hidden context kept apart. */
module MergeUsers {
  import opened Text
  import opened Transcript
  import opened RuntimeContext

  /** The list form of a content. */
  function ToBlocks(content: Content): seq<Block> {
    match content
    case NoContent => []
    case Str(s) => [TextBlock(s)]
    case Blocks(bs) => seq(|bs|, i requires 0 <= i < |bs| => if bs[i].Bare? then TextBlock(bs[i].shown) else bs[i])
  }

  function MergeContent(left: Content, right: Content): Content {
    if left.Str? && right.Str? then
      if left.text != "" then Str(left.text + BREAK + right.text) else right
    else Blocks(ToBlocks(left) + ToBlocks(right))
  }

  /** A row that takes part in merging: a visible user row that no provider boundary seals. */
  predicate Mergeable(m: Message) {
    m.role == User && m.content != Str(SUMMARY_CONTINUATION_TEXT) && !m.hidden && !m.meta.boundary
  }

  /** The visible content and the hidden context of a row; `None` when its marker does not match. */
  function Parts(m: Message): Option<Detached> {
    if m.meta.marker.None? then Some(Detached(m.content, [], [])) else Detach(m.content, m.meta.marker.value)
  }

  function MergeRows(left: Message, right: Message): Message {
    var l, r := Parts(left), Parts(right);
    if l.None? || r.None? then left.(content := MergeContent(left.content, right.content))
    else
      var content := MergeContent(l.value.content, r.value.content);
      var context := l.value.blocks + r.value.blocks;
      if context == [] then left.(content := content)
      else
        var (merged, marker) := Reattach(content, l.value.sources + r.value.sources, context);
        left.(content := merged,
              meta := Meta(left.meta.boundary, Some(marker), right.meta.other + left.meta.other))
  }

  function Push(prepared: seq<Message>, m: Message): seq<Message> {
    if prepared != [] && Mergeable(prepared[|prepared| - 1]) && Mergeable(m)
    then prepared[..|prepared| - 1] + [MergeRows(prepared[|prepared| - 1], m)]
    else prepared + [m]
  }

  /** The rows of `rest` pushed one by one after the rows already prepared. */
  function MergeOnto(prepared: seq<Message>, rest: seq<Message>): seq<Message>
    decreases |rest|
  {
    if rest == [] then prepared else MergeOnto(Push(prepared, rest[0]), rest[1..])
  }

  function Merged(msgs: seq<Message>): seq<Message> {
    MergeOnto([], msgs)
  }

  method MergeAdjacentUserMessages(messages: seq<Message>) returns (prepared: seq<Message>)
    ensures prepared == Merged(messages)
  {
    prepared := [];
    assert messages[0..] == messages;
    for i := 0 to |messages|
      invariant MergeOnto(prepared, messages[i..]) == Merged(messages)
    {
      var injection := messages[i];
      assert messages[i..][1..] == messages[i + 1..];
      if prepared != [] && Mergeable(injection) && Mergeable(prepared[|prepared| - 1]) {
        prepared := prepared[..|prepared| - 1] + [MergeRows(prepared[|prepared| - 1], injection)];
      } else {
        prepared := prepared + [injection];
      }
    }
  }

  // ----- merging and concatenation

  lemma {:induction false} MergeOntoSplit(prepared: seq<Message>, a: seq<Message>, b: seq<Message>)
    ensures MergeOnto(prepared, a + b) == MergeOnto(MergeOnto(prepared, a), b)
    decreases |a|
  {
    if a == [] {
      assert a + b == b;
    } else {
      assert (a + b)[1..] == a[1..] + b;
      MergeOntoSplit(Push(prepared, a[0]), a[1..], b);
    }
  }

  /** No two neighbours can merge any more. */
  predicate Apart(msgs: seq<Message>) {
    forall i | 0 < i < |msgs| :: !(Mergeable(msgs[i - 1]) && Mergeable(msgs[i]))
  }

  lemma {:induction false} MergeOntoApart(prepared: seq<Message>, rest: seq<Message>)
    requires Apart(prepared)
    ensures Apart(MergeOnto(prepared, rest))
    decreases |rest|
  {
    if rest != [] {
      MergeOntoApart(Push(prepared, rest[0]), rest[1..]);
    }
  }

  lemma {:induction false} ApartFixed(prepared: seq<Message>, rest: seq<Message>)
    requires Apart(prepared + rest)
    ensures MergeOnto(prepared, rest) == prepared + rest
    decreases |rest|
  {
    if rest == [] {
      assert prepared + rest == prepared;
    } else {
      var all := prepared + rest;
      assert prepared + [rest[0]] + rest[1..] == all;
      if prepared != [] {
        assert all[|prepared| - 1] == prepared[|prepared| - 1] && all[|prepared|] == rest[0];
      }
      ApartFixed(prepared + [rest[0]], rest[1..]);
    }
  }

  /** Merging what is already merged, followed by new rows, is merging everything at once. */
  lemma MergeAbsorbs(a: seq<Message>, b: seq<Message>)
    ensures Merged(Merged(a) + b) == Merged(a + b)
  {
    MergeOntoApart([], a);
    ApartFixed([], Merged(a));
    assert [] + Merged(a) == Merged(a);
    MergeOntoSplit([], Merged(a), b);
    MergeOntoSplit([], a, b);
  }

  // ----- a run of mergeable rows

  /** Two lists of context texts that a model reads alike: the same joined text. */
  ghost predicate SameContext(x: seq<Block>, y: seq<Block>)
    requires AllText(x) && AllText(y)
  {
    (x == [] <==> y == []) && Join(Texts(x)) == Join(Texts(y))
  }

  lemma SameContextAppend(x: seq<Block>, y: seq<Block>, z: seq<Block>)
    requires AllText(x) && AllText(y) && AllText(z) && SameContext(x, y)
    ensures AllText(x + z) && AllText(y + z) && SameContext(x + z, y + z)
  {
    assert Texts(x + z) == Texts(x) + Texts(z) && Texts(y + z) == Texts(y) + Texts(z);
    if z == [] {
      assert x + z == x && y + z == y;
    } else if x == [] {
      assert x + z == z && y + z == z;
    } else {
      JoinSplit(Texts(x), Texts(z));
      JoinSplit(Texts(y), Texts(z));
    }
  }

  /** The marker matches the row, the context is text, and it is not the continuation sentence. */
  ghost predicate WellMarked(m: Message) {
    && Parts(m).Some? && AllText(Parts(m).value.blocks)
    && Parts(m).value.blocks != [TextBlock(SUMMARY_CONTINUATION_TEXT)]
  }

  /** Merging two rows whose markers match gives a row whose marker matches again: the visible
      contents are merged, the sources are in order, and the context reads as both in order. */
  lemma MergedParts(left: Message, right: Message)
    requires WellMarked(left) && WellMarked(right)
    ensures WellMarked(MergeRows(left, right))
    ensures var (l, r, d) := (Parts(left).value, Parts(right).value, Parts(MergeRows(left, right)).value);
            && d.content == MergeContent(l.content, r.content)
            && d.sources == l.sources + r.sources
            && AllText(l.blocks + r.blocks) && SameContext(d.blocks, l.blocks + r.blocks)
  {
    var l, r := Parts(left).value, Parts(right).value;
    var content, context := MergeContent(l.content, r.content), l.blocks + r.blocks;
    SourcesFixed(left);
    SourcesFixed(right);
    NonEmptySplit(l.sources, r.sources);
    if context == [] {
      assert left.meta.marker.None? && right.meta.marker.None?;
    } else {
      if content.Str? {
        TextContext(left, right);
        var whole := [TextBlock(Join(Texts(context)))];
        assert Texts(whole) == [Join(Texts(context))];
      }
      ReattachThenDetach(content, l.sources + r.sources, context);
    }
  }

  lemma SourcesFixed(m: Message)
    requires Parts(m).Some?
    ensures NonEmpty(Parts(m).value.sources) == Parts(m).value.sources
  {
    if m.meta.marker.Some? {
      NonEmptyFixed(m.meta.marker.value.sources);
    }
  }

  const NEWLINE: char := '\n'

  lemma SummaryHasNoBreak()
    ensures NEWLINE !in SUMMARY_CONTINUATION_TEXT
  {
  }

  /** The joined context of two rows with text contents is not empty, and it is not the
      continuation sentence. */
  lemma TextContext(left: Message, right: Message)
    requires WellMarked(left) && WellMarked(right)
    requires Parts(left).value.content.Str? && Parts(right).value.content.Str?
    requires Parts(left).value.blocks + Parts(right).value.blocks != []
    ensures var context := Parts(left).value.blocks + Parts(right).value.blocks;
            && AllText(context) && Join(Texts(context)) != ""
            && Join(Texts(context)) != SUMMARY_CONTINUATION_TEXT
  {
    var x, y := Parts(left).value.blocks, Parts(right).value.blocks;
    var context := x + y;
    SummaryHasNoBreak();
    if x != [] && y != [] {
      assert Texts(context) == [x[0].text, y[0].text];
      var joined := x[0].text + BREAK + y[0].text;
      assert Join(Texts(context)) == joined;
      assert joined[|x[0].text|] == NEWLINE;
    } else {
      assert context == if x == [] then y else x;
      assert Texts(context) == [context[0].text];
    }
  }

  lemma MergedStaysMergeable(left: Message, right: Message)
    requires Mergeable(left) && Mergeable(right) && WellMarked(left) && WellMarked(right)
    ensures Mergeable(MergeRows(left, right))
  {
    var l, r := Parts(left).value, Parts(right).value;
    var content, context := MergeContent(l.content, r.content), l.blocks + r.blocks;
    SummaryHasNoBreak();
    if content.Str? {
      var text := l.content.text;
      assert text != "" ==> content.text[|text|] == NEWLINE;
      if context != [] {
        TextContext(left, right);
        var suffix := Join(Texts(context));
        assert content.text != "" ==> WithSuffix(content.text, suffix)[|content.text|] == NEWLINE;
      }
    }
  }

  ghost predicate MergeRun(run: seq<Message>) {
    run != [] && forall i | 0 <= i < |run| :: Mergeable(run[i]) && WellMarked(run[i])
  }

  /** The visible contents of a run merged from left to right, its sources and its context blocks. */
  ghost function RunContent(run: seq<Message>): Content
    requires MergeRun(run)
  {
    var n := |run| - 1;
    var last := Parts(run[n]).value.content;
    if n == 0 then last else MergeContent(RunContent(run[..n]), last)
  }

  ghost function RunSources(run: seq<Message>): seq<string>
    requires MergeRun(run)
  {
    var n := |run| - 1;
    (if n == 0 then [] else RunSources(run[..n])) + Parts(run[n]).value.sources
  }

  ghost function RunBlocks(run: seq<Message>): (blocks: seq<Block>)
    requires MergeRun(run)
    ensures AllText(blocks)
  {
    var n := |run| - 1;
    (if n == 0 then [] else RunBlocks(run[..n])) + Parts(run[n]).value.blocks
  }

  /** `row` stands for a whole run: its marker detaches to the merged visible contents, the sources of all
      rows and the context of all rows, in order. */
  ghost predicate StandsFor(row: Message, run: seq<Message>)
    requires MergeRun(run)
  {
    && Mergeable(row) && WellMarked(row)
    && Parts(row).value.content == RunContent(run)
    && Parts(row).value.sources == RunSources(run)
    && SameContext(Parts(row).value.blocks, RunBlocks(run))
  }

  lemma MergedSnoc(run: seq<Message>)
    requires run != []
    ensures Merged(run) == Push(Merged(run[..|run| - 1]), run[|run| - 1])
  {
    var init, last := run[..|run| - 1], run[|run| - 1];
    assert run == init + [last];
    MergeOntoSplit([], init, [last]);
    assert [last][1..] == [];
  }

  lemma FirstRowStands(run: seq<Message>)
    requires MergeRun(run) && |run| == 1
    ensures StandsFor(run[0], run)
  {
    assert RunBlocks(run) == Parts(run[0]).value.blocks;
  }

  lemma NextRowJoins(row: Message, run: seq<Message>)
    requires MergeRun(run) && |run| > 1 && MergeRun(run[..|run| - 1]) && StandsFor(row, run[..|run| - 1])
    ensures StandsFor(MergeRows(row, run[|run| - 1]), run)
  {
    var init, last := run[..|run| - 1], run[|run| - 1];
    MergedStaysMergeable(row, last);
    MergedParts(row, last);
    SameContextAppend(Parts(row).value.blocks, RunBlocks(init), Parts(last).value.blocks);
  }

  lemma OneRowRun(run: seq<Message>)
    requires MergeRun(run) && |run| == 1
    ensures Merged(run) == [run[0]] && StandsFor(run[0], run)
  {
    MergedSnoc(run);
    FirstRowStands(run);
  }

  lemma LongerRun(run: seq<Message>, row: Message)
    requires MergeRun(run) && |run| > 1 && MergeRun(run[..|run| - 1])
    requires Merged(run[..|run| - 1]) == [row] && StandsFor(row, run[..|run| - 1])
    ensures Merged(run) == [MergeRows(row, run[|run| - 1])] && StandsFor(MergeRows(row, run[|run| - 1]), run)
  {
    MergedSnoc(run);
    PushMerges(row, run[|run| - 1]);
    NextRowJoins(row, run);
  }

  lemma PushMerges(row: Message, last: Message)
    requires Mergeable(row) && Mergeable(last)
    ensures Push([row], last) == [MergeRows(row, last)]
  {
  }

  /** The one row that a run becomes. */
  lemma {:induction false} OneRow(run: seq<Message>) returns (row: Message)
    requires MergeRun(run)
    ensures Merged(run) == [row] && StandsFor(row, run)
    decreases |run|
  {
    if |run| == 1 {
      OneRowRun(run);
      row := run[0];
    } else {
      row := OneRow(run[..|run| - 1]);
      LongerRun(run, row);
      row := MergeRows(row, run[|run| - 1]);
    }
  }

  /** A run of mergeable rows becomes one row, which stands for all of them. */
  lemma RunBecomesOneRow(run: seq<Message>)
    requires MergeRun(run)
    ensures |Merged(run)| == 1 && StandsFor(Merged(run)[0], run)
  {
    var row := OneRow(run);
  }

  /** Runs that cannot join are merged separately. */
  lemma MergeSeparates(a: seq<Message>, b: seq<Message>)
    requires a != [] && b != [] && !(Mergeable(a[|a| - 1]) && Mergeable(b[0]))
    ensures Merged(a + b) == Merged(a) + Merged(b)
  {
    MergeOntoSplit([], a, b);
    PushApart(a, b[0]);
    FirstRow(b);
    MergeBehind(Merged(a), [b[0]], b[1..]);
  }

  lemma PushApart(a: seq<Message>, m: Message)
    requires a != [] && !(Mergeable(a[|a| - 1]) && Mergeable(m))
    ensures Push(Merged(a), m) == Merged(a) + [m]
  {
    if Mergeable(m) {
      LastKept(a);
    }
  }

  lemma FirstRow(b: seq<Message>)
    requires b != []
    ensures Merged(b) == MergeOnto([b[0]], b[1..])
  {
    assert [] + [b[0]] == [b[0]];
  }

  lemma {:induction false} MergeBehind(done: seq<Message>, prepared: seq<Message>, rest: seq<Message>)
    requires prepared != []
    ensures MergeOnto(done + prepared, rest) == done + MergeOnto(prepared, rest)
    decreases |rest|
  {
    if rest != [] {
      var next := Push(prepared, rest[0]);
      var all := done + prepared;
      assert all[|all| - 1] == prepared[|prepared| - 1];
      assert all[..|all| - 1] == done + prepared[..|prepared| - 1];
      assert Push(all, rest[0]) == done + next;
      MergeBehind(done, next, rest[1..]);
    }
  }

  /** A row that cannot merge stays the last row. */
  lemma LastKept(a: seq<Message>)
    requires a != [] && !Mergeable(a[|a| - 1])
    ensures Merged(a) == Merged(a[..|a| - 1]) + [a[|a| - 1]]
  {
    var (init, last) := (a[..|a| - 1], a[|a| - 1]);
    assert a == init + [last];
    MergeOntoSplit([], init, [last]);
    assert [last][1..] == [];
  }

  // ----- what merging leaves alone

  /** The rows that are not user rows. */
  function NonUser(msgs: seq<Message>): seq<Message> {
    if msgs == [] then [] else (if msgs[0].role == User then [] else [msgs[0]]) + NonUser(msgs[1..])
  }

  lemma {:induction false} NonUserSplit(a: seq<Message>, b: seq<Message>)
    ensures NonUser(a + b) == NonUser(a) + NonUser(b)
  {
    if a == [] {
      assert a + b == b;
    } else {
      assert (a + b)[1..] == a[1..] + b;
      NonUserSplit(a[1..], b);
    }
  }

  lemma {:induction false} MergeKeepsOthers(prepared: seq<Message>, rest: seq<Message>)
    ensures NonUser(MergeOnto(prepared, rest)) == NonUser(prepared) + NonUser(rest)
    decreases |rest|
  {
    if rest != [] {
      MergeKeepsOthers(Push(prepared, rest[0]), rest[1..]);
      PushKeepsOthers(prepared, rest[0]);
    }
  }

  lemma PushKeepsOthers(prepared: seq<Message>, m: Message)
    ensures NonUser(Push(prepared, m)) == NonUser(prepared) + NonUser([m])
  {
    if prepared != [] && Mergeable(prepared[|prepared| - 1]) && Mergeable(m) {
      var init, last := prepared[..|prepared| - 1], prepared[|prepared| - 1];
      assert prepared == init + [last];
      NonUserSplit(init, [last]);
      NonUserSplit(init, [MergeRows(last, m)]);
      assert MergeRows(last, m).role == User;
    } else {
      NonUserSplit(prepared, [m]);
    }
  }
}
