/** The protocol-free entities (internal/model), the account events (internal/event)
    and the log record that carries one event. Times, actors and header fields that
    no modelled code inspects are dropped; identifiers are plain strings. */
module Model {

  type Id = string
  type LabelId = string
  type Flag = string

  datatype Option<+T> = None | Some(value: T)

  /** messageId is the RFC 5322 Message-ID header, "" when absent. */
  datatype Envelope = Envelope(from: seq<string>, date: int, messageId: string, inReplyTo: string,
                               references: seq<string>)

  /** Labels and Flags are Go maps that only ever hold the value true: sets. */
  datatype Message = Message(id: Id, blobRef: string, envelope: Envelope, size: int, threadId: Id,
                             labels: set<LabelId>, flags: set<Flag>)

  datatype Label = Label(id: LabelId, name: string, kind: string)

  /** A thread is its message ids in ingest order; its own id is the key it is stored under. */
  type Thread = seq<Id>

  datatype Event =
    | MessageIngested(messageId: Id, blobRef: string, envelope: Envelope, size: int, threadId: Id,
                      initialLabels: seq<LabelId>, initialFlags: seq<Flag>)
    | Labeled(messageId: Id, labelId: LabelId)
    | Unlabeled(messageId: Id, labelId: LabelId)
    | FlagSet(messageId: Id, flag: Flag, value: bool)
    | LabelCreated(labelId: LabelId, name: string, kind: string)
    | LabelRenamed(labelId: LabelId, name: string)
    | LabelDeleted(labelId: LabelId)
    | MessageExpunged(messageId: Id)
    | ThreadMerged(into: Id, from: Id)

  datatype Record = Record(seqNo: nat, event: Event)

  const LABEL_TRASH: LabelId := "trash"
  const LABEL_SPAM: LabelId := "spam"

  function SystemLabels(): map<LabelId, Label> {
    map[
      "inbox" := Label("inbox", "Inbox", "system"),
      "archive" := Label("archive", "Archive", "system"),
      "sent" := Label("sent", "Sent", "system"),
      "drafts" := Label("drafts", "Drafts", "system"),
      "trash" := Label("trash", "Trash", "system"),
      "spam" := Label("spam", "Spam", "system"),
      "star" := Label("star", "Starred", "system"),
      "important" := Label("important", "Important", "system"),
      "snoozed" := Label("snoozed", "Snoozed", "system")
    ]
  }
}
