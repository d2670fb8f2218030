/** What a reader sees in a merged row: the visible contents of the rows it stands for, in order. */
module MergedTexts {
  import opened Text
  import opened Transcript
  import opened MergeUsers

  predicate AllStr(cs: seq<Content>) {
    forall i | 0 <= i < |cs| :: cs[i].Str?
  }

  function TextsOf(cs: seq<Content>): seq<string>
    requires AllStr(cs)
  {
    seq(|cs|, i requires 0 <= i < |cs| => cs[i].text)
  }

  /** The text reads as the given ones from the first one on that is not empty, with an empty line in between. */
  ghost predicate ReadsAs(text: string, texts: seq<string>) {
    exists k :: 0 <= k <= |texts| && (forall i | 0 <= i < k :: texts[i] == "") && (k < |texts| ==> texts[k] != "")
      && text == Join(texts[k..])
  }

  /** How many blocks a content has in a block list, and which is block `j`. */
  function Width(c: Content): nat {
    match c
    case NoContent => 0
    case Str(_) => 1
    case Blocks(bs) => |bs|
  }

  function ShownBlock(c: Content, j: nat): Block
    requires j < Width(c)
  {
    match c
    case Str(text) => TextBlock(text)
    case Blocks(bs) => match bs[j]
      case Bare(shown) => TextBlock(shown)
      case b => b
  }

  /** The number of blocks of the contents from `k` up to `q`. */
  function Span(cs: seq<Content>, k: nat, q: nat): nat
    requires q <= |cs|
  {
    if q <= k then 0 else Span(cs, k, q - 1) + Width(cs[q - 1])
  }

  /** The blocks are `lead`, and behind it those of the contents from `k` on, in order. */
  ghost predicate LaidOut(cs: seq<Content>, k: nat, lead: seq<Block>, bs: seq<Block>) {
    && k <= |cs| && |bs| == |lead| + Span(cs, k, |cs|) && bs[..|lead|] == lead
    && forall q, j | k <= q < |cs| && 0 <= j < Width(cs[q]) :: BlockAt(cs, k, |lead|, bs, q, j)
  }

  /** Block `j` of content `q` stands behind `lead` blocks and the blocks of the contents from `k` up to it. */
  ghost predicate BlockAt(cs: seq<Content>, k: nat, lead: nat, bs: seq<Block>, q: nat, j: nat)
    requires q < |cs| && j < Width(cs[q])
  {
    lead + Span(cs, k, q) + j < |bs| && bs[lead + Span(cs, k, q) + j] == ShownBlock(cs[q], j)
  }

  /** Texts in front of the first content that is no text are shown in one text block. */
  ghost predicate LeadOf(texts: seq<string>, lead: seq<Block>) {
    if texts == [] then lead == [] else |lead| == 1 && lead[0].TextBlock? && ReadsAs(lead[0].text, texts)
  }

  ghost predicate Listed(cs: seq<Content>, bs: seq<Block>) {
    exists k, lead ::
      0 <= k < |cs| && AllStr(cs[..k]) && !cs[k].Str? && LeadOf(TextsOf(cs[..k]), lead) && LaidOut(cs, k, lead, bs)
  }

  /** What the merged content of a list of contents reads as: all texts in order, or a list of all blocks in order. */
  ghost predicate MergedAs(cs: seq<Content>, merged: Content) {
    if |cs| == 1 then merged == cs[0]
    else if AllStr(cs) then merged.Str? && ReadsAs(merged.text, TextsOf(cs))
    else merged.Blocks? && Listed(cs, merged.blocks)
  }

  // ----- one content more

  lemma {:induction false} JoinStarts(texts: seq<string>)
    requires texts != [] && texts[0] != ""
    ensures Join(texts) != ""
  {
  }

  lemma ReadsMore(text: string, texts: seq<string>, more: string)
    requires ReadsAs(text, texts)
    ensures ReadsAs(if text != "" then text + BREAK + more else more, texts + [more])
  {
    var k :| 0 <= k <= |texts| && (forall i | 0 <= i < k :: texts[i] == "") && (k < |texts| ==> texts[k] != "")
      && text == Join(texts[k..]);
    var all := texts + [more];
    if k < |texts| {
      JoinStarts(texts[k..]);
      JoinSplit(texts[k..], [more]);
      assert all[k..] == texts[k..] + [more];
      assert forall i | 0 <= i < k :: all[i] == texts[i];
      assert all[k] == texts[k];
    } else {
      assert texts[k..] == [];
      OnlyTheLast(texts, more);
    }
  }

  lemma OnlyTheLast(texts: seq<string>, more: string)
    requires forall i | 0 <= i < |texts| :: texts[i] == ""
    ensures ReadsAs(more, texts + [more])
  {
    var all := texts + [more];
    var k := if more == "" then |all| else |texts|;
    assert all[k..] == if more == "" then [] else [more];
    assert forall i | 0 <= i < k :: all[i] == "";
  }

  lemma {:induction false} SpanStays(cs: seq<Content>, c: Content, k: nat, q: nat)
    requires q <= |cs|
    ensures Span(cs + [c], k, q) == Span(cs, k, q)
  {
    if q > k {
      SpanStays(cs, c, k, q - 1);
      assert (cs + [c])[q - 1] == cs[q - 1];
    }
  }

  lemma ShownBlocks(c: Content)
    ensures |ToBlocks(c)| == Width(c) && forall j | 0 <= j < Width(c) :: ToBlocks(c)[j] == ShownBlock(c, j)
  {
  }

  lemma OldBlock(cs: seq<Content>, k: nat, lead: seq<Block>, bs: seq<Block>, c: Content, q: nat, j: nat)
    requires LaidOut(cs, k, lead, bs) && k <= q < |cs| && j < Width(cs[q])
    ensures BlockAt(cs + [c], k, |lead|, bs + ToBlocks(c), q, j)
  {
    assert BlockAt(cs, k, |lead|, bs, q, j);
    SpanStays(cs, c, k, q);
  }

  lemma NewBlock(cs: seq<Content>, k: nat, lead: nat, bs: seq<Block>, c: Content, j: nat)
    requires k <= |cs| && |bs| == lead + Span(cs, k, |cs|) && j < Width(c)
    ensures BlockAt(cs + [c], k, lead, bs + ToBlocks(c), |cs|, j)
  {
    SpanStays(cs, c, k, |cs|);
    ShownBlocks(c);
    assert (bs + ToBlocks(c))[|bs| + j] == ToBlocks(c)[j];
  }

  lemma WholeWidth(cs: seq<Content>, k: nat, c: Content)
    requires k <= |cs|
    ensures Span(cs + [c], k, |cs + [c]|) == Span(cs, k, |cs|) + Width(c)
  {
    SpanStays(cs, c, k, |cs|);
  }

  lemma LaidOutMore(cs: seq<Content>, k: nat, lead: seq<Block>, bs: seq<Block>, c: Content)
    requires LaidOut(cs, k, lead, bs)
    ensures LaidOut(cs + [c], k, lead, bs + ToBlocks(c))
  {
    var all, more := cs + [c], bs + ToBlocks(c);
    WholeWidth(cs, k, c);
    ShownBlocks(c);
    assert more[..|lead|] == bs[..|lead|];
    forall q, j | k <= q < |all| && 0 <= j < Width(all[q]) ensures BlockAt(all, k, |lead|, more, q, j) {
      if q < |cs| {
        OldBlock(cs, k, lead, bs, c, q, j);
      } else {
        NewBlock(cs, k, |lead|, bs, c, j);
      }
    }
  }

  lemma NothingLaidOut(cs: seq<Content>, lead: seq<Block>)
    ensures LaidOut(cs, |cs|, lead, lead)
  {
  }

  lemma ListedMore(cs: seq<Content>, bs: seq<Block>, c: Content)
    requires Listed(cs, bs)
    ensures Listed(cs + [c], bs + ToBlocks(c))
  {
    var k, lead :|
      0 <= k < |cs| && AllStr(cs[..k]) && !cs[k].Str? && LeadOf(TextsOf(cs[..k]), lead) && LaidOut(cs, k, lead, bs);
    LaidOutMore(cs, k, lead, bs, c);
    assert (cs + [c])[..k] == cs[..k] && (cs + [c])[k] == cs[k];
  }

  /** The first content that is no text, behind texts that read as `lead`. */
  lemma FirstListed(cs: seq<Content>, lead: seq<Block>, c: Content)
    requires AllStr(cs) && !c.Str? && LeadOf(TextsOf(cs), lead)
    ensures Listed(cs + [c], lead + ToBlocks(c))
  {
    NothingLaidOut(cs, lead);
    LaidOutMore(cs, |cs|, lead, lead, c);
    assert (cs + [c])[..|cs|] == cs && (cs + [c])[|cs|] == c;
  }

  // ----- the contents of a run

  /** The contents merged from left to right. */
  ghost function Folded(cs: seq<Content>): Content
    requires cs != []
  {
    var n := |cs| - 1;
    if n == 0 then cs[0] else MergeContent(Folded(cs[..n]), cs[n])
  }

  lemma MergedHasNoBare(l: Content, r: Content)
    requires !(l.Str? && r.Str?)
    ensures var m := MergeContent(l, r); m.Blocks? && ToBlocks(m) == m.blocks && m.blocks == ToBlocks(l) + ToBlocks(r)
  {
  }

  /** What holds of the contents read so far. */
  ghost predicate ReadSoFar(cs: seq<Content>, merged: Content) {
    if AllStr(cs) then merged.Str? && ReadsAs(merged.text, TextsOf(cs))
    else !merged.Str? && Listed(cs, ToBlocks(merged))
  }

  lemma {:induction false} OneText(text: string)
    ensures AllStr([Str(text)]) && ReadsAs(text, TextsOf([Str(text)]))
  {
    assert TextsOf([Str(text)]) == [text];
    ReadsAsItself(text);
  }

  lemma {:induction false} ReadsAsItself(text: string)
    ensures ReadsAs(text, [text])
  {
    var k := if text == "" then 1 else 0;
    assert [text][k..] == if text == "" then [] else [text];
    assert text == Join([text][k..]);
  }

  lemma OneOther(c: Content)
    requires !c.Str?
    ensures Listed([c], ToBlocks(c))
  {
    var none: seq<Content> := [];
    assert TextsOf(none) == [];
    FirstListed(none, [], c);
    assert none + [c] == [c] && [] + ToBlocks(c) == ToBlocks(c);
  }

  lemma OneRead(c: Content)
    ensures ReadSoFar([c], c)
  {
    if c.Str? {
      OneText(c.text);
    } else {
      OneOther(c);
      assert !AllStr([c]) by { assert [c][0] == c; }
    }
  }

  lemma TextAfterTexts(cs: seq<Content>, merged: Content, c: Content)
    requires AllStr(cs) && merged.Str? && ReadsAs(merged.text, TextsOf(cs)) && c.Str?
    ensures AllStr(cs + [c]) && MergeContent(merged, c).Str?
    ensures ReadsAs(MergeContent(merged, c).text, TextsOf(cs + [c]))
  {
    ReadsMore(merged.text, TextsOf(cs), c.text);
    assert TextsOf(cs + [c]) == TextsOf(cs) + [c.text];
  }

  lemma OtherAfterTexts(cs: seq<Content>, merged: Content, c: Content)
    requires cs != [] && AllStr(cs) && merged.Str? && ReadsAs(merged.text, TextsOf(cs)) && !c.Str?
    ensures !AllStr(cs + [c]) && Listed(cs + [c], ToBlocks(merged) + ToBlocks(c))
  {
    FirstListed(cs, [TextBlock(merged.text)], c);
    assert (cs + [c])[|cs|] == c;
  }

  lemma MoreRead(cs: seq<Content>, merged: Content, c: Content)
    requires cs != [] && ReadSoFar(cs, merged)
    ensures ReadSoFar(cs + [c], MergeContent(merged, c))
  {
    if AllStr(cs) && c.Str? {
      TextAfterTexts(cs, merged, c);
    } else if AllStr(cs) {
      OtherAfterTexts(cs, merged, c);
      MergedOnward(cs, merged, c);
    } else {
      ListedMore(cs, ToBlocks(merged), c);
      NotAllStr(cs, c);
      MergedOnward(cs, merged, c);
    }
  }

  lemma NotAllStr(cs: seq<Content>, c: Content)
    requires !AllStr(cs)
    ensures !AllStr(cs + [c])
  {
    var i :| 0 <= i < |cs| && !cs[i].Str?;
    assert (cs + [c])[i] == cs[i];
  }

  lemma MergedOnward(cs: seq<Content>, merged: Content, c: Content)
    requires !(merged.Str? && c.Str?)
    ensures ToBlocks(MergeContent(merged, c)) == ToBlocks(merged) + ToBlocks(c)
  {
    MergedHasNoBare(merged, c);
  }

  ghost predicate FoldRead(cs: seq<Content>) {
    cs != [] && ReadSoFar(cs, Folded(cs))
  }

  lemma FoldStep(init: seq<Content>, last: Content)
    requires FoldRead(init)
    ensures FoldRead(init + [last])
  {
    var cs := init + [last];
    assert cs[..|cs| - 1] == init;
    MoreRead(init, Folded(init), last);
  }

  lemma {:induction false} FoldReadSoFar(cs: seq<Content>)
    requires cs != []
    ensures FoldRead(cs)
    decreases |cs|
  {
    if |cs| == 1 {
      assert cs == [cs[0]];
      OneRead(cs[0]);
    } else {
      var init, last := cs[..|cs| - 1], cs[|cs| - 1];
      assert cs == init + [last];
      FoldReadSoFar(init);
      FoldStep(init, last);
    }
  }

  /** For every list of contents: what the merged content reads as. */
  lemma {:induction false} FoldReads(cs: seq<Content>)
    requires cs != []
    ensures MergedAs(cs, Folded(cs))
  {
    FoldReadSoFar(cs);
    if |cs| > 1 && !AllStr(cs) {
      MergedHasNoBare(Folded(cs[..|cs| - 1]), cs[|cs| - 1]);
    }
  }

  // ----- in a transcript

  /** A user row that may be shown as one with its neighbours: not hidden, not sealed by a provider, and not the
      sentence that asks to go on. */
  predicate VisibleUser(m: Message) {
    && m.role == User && !m.hidden && !m.meta.boundary
    && !(m.content.Str? && m.content.text == SUMMARY_CONTINUATION_TEXT)
  }

  ghost predicate VisibleRun(run: seq<Message>) {
    run != [] && forall i | 0 <= i < |run| :: VisibleUser(run[i]) && WellMarked(run[i])
  }

  ghost function Contents(run: seq<Message>): (cs: seq<Content>)
    requires VisibleRun(run)
    ensures |cs| == |run|
  {
    seq(|run|, i requires 0 <= i < |run| => Parts(run[i]).value.content)
  }

  lemma FrontOfRun(run: seq<Message>)
    requires VisibleRun(run) && |run| > 1
    ensures VisibleRun(run[..|run| - 1]) && Contents(run)[..|run| - 1] == Contents(run[..|run| - 1])
  {
  }

  lemma RunIsMergeRun(run: seq<Message>)
    requires VisibleRun(run)
    ensures MergeRun(run)
  {
  }

  lemma {:induction false} RunFolds(run: seq<Message>)
    requires VisibleRun(run)
    ensures MergeRun(run) && RunContent(run) == Folded(Contents(run))
    decreases |run|
  {
    RunIsMergeRun(run);
    if |run| > 1 {
      FrontOfRun(run);
      RunFolds(run[..|run| - 1]);
    }
  }

  /** A run of visible user rows becomes one row. Its visible content reads as the visible texts of all rows in order,
      from the first that is not empty on, with an empty line between them; or, with other contents among them, as a
      list of the blocks of all rows in order. */
  lemma {:induction false} MergedRowReads(run: seq<Message>)
    requires VisibleRun(run)
    ensures |Merged(run)| == 1 && Parts(Merged(run)[0]).Some?
    ensures MergedAs(Contents(run), Parts(Merged(run)[0]).value.content)
  {
    RunFolds(run);
    RunBecomesOneRow(run);
    FoldReads(Contents(run));
  }

  /** Wherever a run stands in a transcript, between rows that are no visible user rows, it becomes one row there. */
  lemma {:induction false} RunInATranscript(a: seq<Message>, run: seq<Message>, b: seq<Message>)
    requires VisibleRun(run)
    requires (a != [] ==> !VisibleUser(a[|a| - 1])) && (b != [] ==> !VisibleUser(b[0]))
    ensures Merged(a + run + b) == Merged(a) + Merged(run) + Merged(b)
    ensures |Merged(run)| == 1 && Parts(Merged(run)[0]).Some?
    ensures MergedAs(Contents(run), Parts(Merged(run)[0]).value.content)
  {
    MergedRowReads(run);
    Separate(a, run);
    assert (a + run)[|a + run| - 1] == run[|run| - 1];
    Separate(a + run, b);
  }

  lemma {:induction false} Separate(a: seq<Message>, b: seq<Message>)
    requires a != [] && b != [] ==> !(VisibleUser(a[|a| - 1]) && VisibleUser(b[0]))
    ensures Merged(a + b) == Merged(a) + Merged(b)
  {
    if a == [] {
      assert a + b == b && [] + Merged(b) == Merged(b);
    } else if b == [] {
      assert a + b == a && Merged(a) + [] == Merged(a);
    } else {
      MergeSeparates(a, b);
    }
  }

  // ----- what else a merged row has

  /** A merged row is the left one but for its content and metadata. It is sealed as the left one is; of two entries of
      the metadata with one key the left one stays. Rows with a marker that does not match keep the left metadata, and
      their stored contents are merged. */
  lemma {:induction false} MergedFields(left: Message, right: Message)
    ensures var m := MergeRows(left, right);
            && m == left.(content := m.content, meta := m.meta) && m.meta.boundary == left.meta.boundary
            && (forall key :: key in m.meta.other ==> key in left.meta.other || key in right.meta.other)
            && (forall key :: key in left.meta.other ==>
                  key in m.meta.other && m.meta.other[key] == left.meta.other[key])
            && (m.meta != left.meta ==> forall key :: key in right.meta.other && key !in left.meta.other ==>
                  key in m.meta.other && m.meta.other[key] == right.meta.other[key])
            && (Parts(left).None? || Parts(right).None? ==>
                  m.meta == left.meta && MergedAs([left.content, right.content], m.content))
  {
    TwoRead(left.content, right.content);
  }

  lemma {:induction false} TwoRead(a: Content, b: Content)
    ensures MergedAs([a, b], MergeContent(a, b))
  {
    var cs := [a, b];
    FoldReads(cs);
    assert cs[..1] == [a];
    assert Folded([a]) == a;
    assert Folded(cs) == MergeContent(Folded(cs[..1]), cs[1]);
  }
}
