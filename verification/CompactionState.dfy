/** Accepted provider input H kept apart from the rows that were not sent yet. */
module CompactionState {
  import opened Transcript
  import opened Repair
  import opened Requests
  import opened RepairPasses

  /** A summary that replaces the transcript rows before a raw boundary. */
  datatype Checkpoint = Checkpoint(summary: string, boundary: nat)

  /** The rows that hold a replacement summary: the stable instructions, rebuilt around it. */
  type SummaryBuilder = string -> seq<Message>

  function Continuation(delta: seq<Message>): seq<Message> {
    if exists m :: m in delta && m.role == User then [] else [Row(User, Str(SUMMARY_CONTINUATION_TEXT))]
  }

  class ContextCompactionState {
    var acceptedMessages: seq<Message>
    var rawAcceptedBoundary: nat
    var activeSummary: Option<string>
    var summaryCheckpoint: Option<Checkpoint>

    /** H starts as the raw rows before `historyBoundary`. */
    constructor (messages: seq<Message>, historyBoundary: nat, summary: Option<string>)
      requires historyBoundary <= |messages|
      ensures acceptedMessages == messages[..historyBoundary] && rawAcceptedBoundary == historyBoundary
      ensures activeSummary == summary && summaryCheckpoint == None
    {
      acceptedMessages := messages[..historyBoundary];
      rawAcceptedBoundary := historyBoundary;
      activeSummary := summary;
      summaryCheckpoint := None;
    }

    method RequestMessages(rawMessages: seq<Message>) returns (request: seq<Message>)
      requires rawAcceptedBoundary <= |rawMessages|
      ensures request == acceptedMessages + rawMessages[rawAcceptedBoundary..]
    {
      request := acceptedMessages + rawMessages[rawAcceptedBoundary..];
    }

    /** The unsent rows of a request that starts with H. */
    method DeltaAfterAccepted(requestMessages: seq<Message>) returns (delta: seq<Message>)
      requires |acceptedMessages| <= |requestMessages|
      ensures requestMessages == requestMessages[..|acceptedMessages|] + delta
    {
      delta := requestMessages[|acceptedMessages|..];
    }

    method AcceptRequest(modelMessages: seq<Message>, rawBoundary: nat)
      modifies this
      ensures acceptedMessages == modelMessages && rawAcceptedBoundary == rawBoundary
      ensures activeSummary == old(activeSummary) && summaryCheckpoint == old(summaryCheckpoint)
    {
      acceptedMessages := modelMessages;
      rawAcceptedBoundary := rawBoundary;
    }

    /** Replace H by a summary and keep the delta. An empty summary, or a request that still does not
        fit, is an error; no checkpoint is recorded then. */
    method CompactRequestHistory(norm: Normalizer, builder: SummaryBuilder, requestMessages: seq<Message>,
                                 summary: string, fits: bool)
      returns (prepared: Option<seq<Message>>)
      requires |acceptedMessages| <= |requestMessages|
      requires acceptedMessages == requestMessages[..|acceptedMessages|]
      modifies this`activeSummary, this`summaryCheckpoint
      ensures prepared.Some? <==> summary != "" && fits
      ensures prepared.Some? ==>
        var delta := requestMessages[|acceptedMessages|..];
        prepared.value == Prepared(norm, builder(summary) + Continuation(delta) + delta)
      ensures summaryCheckpoint == if prepared.Some? then Some(Checkpoint(summary, rawAcceptedBoundary))
                                   else old(summaryCheckpoint)
      ensures activeSummary == if summary != "" then Some(summary) else old(activeSummary)
    {
      var delta := DeltaAfterAccepted(requestMessages);
      if summary == "" {
        return None;
      }
      activeSummary := Some(summary);
      var continuation := Continuation(delta);
      var rows := PrepareMessagesForModel(norm, builder(summary) + continuation + delta);
      if !fits {
        return None;
      }
      summaryCheckpoint := Some(Checkpoint(summary, rawAcceptedBoundary));
      prepared := Some(rows);
    }
  }
}
