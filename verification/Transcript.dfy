/** The rows of a model transcript, with the fields that request shaping, merging and
    persistence look at. */
module Transcript {

  datatype Option<+T> = None | Some(value: T)

  datatype Role = User | Assistant | Tool | OtherRole(name: string)

  /** A name as stored in a tool call: missing, some other JSON value, or text. */
  datatype NameField = NoName | NonText(shown: string) | Named(text: string)

  /** One element of `tool_calls`. `fn` is the `function` entry when that entry is a dict.
      An id that is missing or falsy is the empty string. */
  datatype ToolCall =
    | NotADict
    | Call(id: string, fn: Option<NameField>, name: NameField)

  /** One element of a list content; `Bare` is an element that is not a dict. */
  datatype Block =
    | TextBlock(text: string)
    | ImageBlock(url: string, path: string)
    | DictBlock(data: string)
    | Bare(shown: string)

  datatype Content = NoContent | Str(text: string) | Blocks(blocks: seq<Block>)

  /** The durable record of an appended runtime-context suffix. */
  datatype Marker = Marker(version: int, sources: seq<string>,
                           suffix: Option<string>, blocks: Option<seq<Block>>)

  /** The `_meta` entry: the provider-state boundary flag, the runtime-context marker and the rest. */
  datatype Meta = Meta(boundary: bool, marker: Option<Marker>, other: map<string, string>)

  const NO_META := Meta(false, None, map[])

  datatype Message = Message(role: Role, content: Content, calls: seq<ToolCall>,
                             toolId: string, name: string, hidden: bool, meta: Meta)

  function Row(role: Role, content: Content): Message {
    Message(role, content, [], "", "", false, NO_META)
  }

  function ToolRow(id: string, name: string, content: Content): Message {
    Message(Tool, content, [], id, name, false, NO_META)
  }

  /** Python truthiness of a content value. */
  predicate Truthy(c: Content) {
    match c
    case NoContent => false
    case Str(s) => s != ""
    case Blocks(bs) => bs != []
  }

  /** In parts because the verifier knows the characters of short literals only. */
  const SUMMARY_CONTINUATION_TEXT: string :=
    "Continue the active " + "task from the working" + "-memory checkpoint above."

  /** The ids that a list of tool calls declares. */
  function CallIds(calls: seq<ToolCall>): set<string> {
    set c | c in calls && c.Call? && c.id != "" :: c.id
  }

  /** The ids that the assistant rows of a transcript declare. */
  function Declared(msgs: seq<Message>): set<string> {
    if msgs == [] then {}
    else (if msgs[0].role == Assistant then CallIds(msgs[0].calls) else {}) + Declared(msgs[1..])
  }

  /** The ids that the tool rows of a transcript answer. */
  function Answered(msgs: seq<Message>): set<string> {
    if msgs == [] then {}
    else (if msgs[0].role == Tool && msgs[0].toolId != "" then {msgs[0].toolId} else {}) + Answered(msgs[1..])
  }

  lemma {:induction false} DeclaredSplit(a: seq<Message>, b: seq<Message>)
    ensures Declared(a + b) == Declared(a) + Declared(b)
  {
    if a == [] {
      assert a + b == b;
    } else {
      assert (a + b)[1..] == a[1..] + b;
      DeclaredSplit(a[1..], b);
    }
  }

  lemma {:induction false} AnsweredSplit(a: seq<Message>, b: seq<Message>)
    ensures Answered(a + b) == Answered(a) + Answered(b)
  {
    if a == [] {
      assert a + b == b;
    } else {
      assert (a + b)[1..] == a[1..] + b;
      AnsweredSplit(a[1..], b);
    }
  }

  /** The ids declared, and the ids answered, once `m` is read. */
  function DeclaredAfter(m: Message, declared: set<string>): set<string> {
    if m.role == Assistant then declared + CallIds(m.calls) else declared
  }

  function AnsweredAfter(m: Message, answered: set<string>): set<string> {
    if m.role == Tool && m.toolId != "" then answered + {m.toolId} else answered
  }

  /** A tool row that answers a declared call that no earlier row answered. */
  predicate Answers(m: Message, declared: set<string>, answered: set<string>) {
    m.toolId != "" && m.toolId in declared && m.toolId !in answered
  }

  /** A transcript read from left to right, with `declared` and `answered` ids already seen: each
      tool row answers a declared id that no earlier row answered. */
  predicate Legal(msgs: seq<Message>, declared: set<string>, answered: set<string>) {
    msgs != [] ==>
      && (msgs[0].role == Tool ==> Answers(msgs[0], declared, answered))
      && Legal(msgs[1..], DeclaredAfter(msgs[0], declared), AnsweredAfter(msgs[0], answered))
  }

  lemma {:induction false} LegalSplit(a: seq<Message>, b: seq<Message>, declared: set<string>, answered: set<string>)
    ensures Legal(a + b, declared, answered) <==>
            Legal(a, declared, answered) && Legal(b, declared + Declared(a), answered + Answered(a))
  {
    if a == [] {
      assert a + b == b;
      assert declared + Declared(a) == declared && answered + Answered(a) == answered;
    } else {
      assert (a + b)[1..] == a[1..] + b;
      var d, f := DeclaredAfter(a[0], declared), AnsweredAfter(a[0], answered);
      LegalSplit(a[1..], b, d, f);
      assert d + Declared(a[1..]) == declared + Declared(a);
      assert f + Answered(a[1..]) == answered + Answered(a);
    }
  }

  /** What `Legal` means for a reader: every tool row answers a call of an earlier assistant row,
      and no two tool rows answer the same call. */
  ghost predicate PairedSoFar(msgs: seq<Message>) {
    && (forall j | 0 <= j < |msgs| && msgs[j].role == Tool ::
          exists i :: 0 <= i < j && msgs[i].role == Assistant && msgs[j].toolId in CallIds(msgs[i].calls))
    && (forall j, k | 0 <= j < k < |msgs| && msgs[j].role == Tool && msgs[k].role == Tool ::
          msgs[j].toolId != msgs[k].toolId)
  }

  lemma {:induction false} DeclaredWitness(msgs: seq<Message>, id: string) returns (i: nat)
    requires id in Declared(msgs)
    ensures i < |msgs| && msgs[i].role == Assistant && id in CallIds(msgs[i].calls)
  {
    if msgs[0].role == Assistant && id in CallIds(msgs[0].calls) {
      i := 0;
    } else {
      i := DeclaredWitness(msgs[1..], id);
      i := i + 1;
    }
  }

  lemma {:induction false} DeclaredAt(msgs: seq<Message>, i: nat)
    requires i < |msgs| && msgs[i].role == Assistant
    ensures CallIds(msgs[i].calls) <= Declared(msgs)
  {
    if i > 0 {
      DeclaredAt(msgs[1..], i - 1);
    }
  }

  lemma {:induction false} AnsweredAt(msgs: seq<Message>, i: nat)
    requires i < |msgs| && msgs[i].role == Tool && msgs[i].toolId != ""
    ensures msgs[i].toolId in Answered(msgs)
  {
    if i > 0 {
      AnsweredAt(msgs[1..], i - 1);
    }
  }

  lemma LegalAt(msgs: seq<Message>, j: nat)
    requires Legal(msgs, {}, {}) && j < |msgs| && msgs[j].role == Tool
    ensures msgs[j].toolId != ""
    ensures msgs[j].toolId in Declared(msgs[..j]) && msgs[j].toolId !in Answered(msgs[..j])
  {
    var before, rest := msgs[..j], msgs[j..];
    assert msgs == before + rest && rest[0] == msgs[j];
    LegalSplit(before, rest, {}, {});
    assert {} + Declared(before) == Declared(before) && {} + Answered(before) == Answered(before);
  }

  lemma LegalIsPaired(msgs: seq<Message>)
    requires Legal(msgs, {}, {})
    ensures PairedSoFar(msgs)
  {
    forall j | 0 <= j < |msgs| && msgs[j].role == Tool
      ensures exists i :: 0 <= i < j && msgs[i].role == Assistant && msgs[j].toolId in CallIds(msgs[i].calls)
    {
      LegalAt(msgs, j);
      var i := DeclaredWitness(msgs[..j], msgs[j].toolId);
      assert msgs[i] == msgs[..j][i];
    }
    forall j, k | 0 <= j < k < |msgs| && msgs[j].role == Tool && msgs[k].role == Tool
      ensures msgs[j].toolId != msgs[k].toolId
    {
      LegalAt(msgs, j);
      LegalAt(msgs, k);
      assert msgs[..k][j] == msgs[j];
      AnsweredAt(msgs[..k], j);
    }
  }
}
