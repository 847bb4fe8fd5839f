/** Turning one fetched message into the record the outlook cleaner stores:
    sender resolution, subject sanitising, the seen/flagged/receipt tests and
    the attachment-name list. */
module MailIngest {
  import opened Text
  import opened Imap
  import opened Wrappers

  /** The stored message record (the ORM's own id and timestamp columns are not
      part of the model).  `openedAt` is a nullable time: valid flag and value. */
  datatype Record = Record(
    messageId: string,
    uid: uint32,
    seqNum: uint32,
    from: string,
    fromName: string,
    to: string,
    body: string,
    subject: string,
    receivedAt: Instant,
    remoteDeletedAt: Instant,
    openedAtValid: bool,
    openedAt: Instant,
    mailBoxFolder: string,
    sizeBytes: uint32,
    isSeen: bool,
    isFlagged: bool,
    isReceipt: bool,
    attachmentNames: string,
    attributes: seq<bv8>)

  /** Go's zero `time.Time`, as an abstract instant. */
  const ZeroTime: Instant := 0

  /** `&Message{}`: every field at its zero value. */
  const EmptyRecord := Record("", 0, 0, "", "", "", "", "", ZeroTime, ZeroTime, false, ZeroTime,
                              "", 0, false, false, false, "", [])

  /** The sender used when the envelope names none. */
  const UnknownSender := Address("", "", "unknown", "unknown")

  /** Subject words that mark a receipt when ingesting. */
  const IngestReceiptWords: seq<string> := [
    "refund", "shipped", "receipt", "confirmation",
    "order", "confirm", "boarding", "delivered",
    "reservation"]

  /** Ingested attachment names are joined with this separator. */
  const AttachmentSeparator := "#"

  /** Some word of `subject`, lower-cased, is exactly one of `keywords`. */
  predicate HasKeywordWord(lib: Library, subject: string, keywords: seq<string>)
  {
    var ws := lib.words(subject);
    exists i :: 0 <= i < |ws| && lib.toLower(ws[i]) in keywords
  }

  /** messageToDBRecord.  The function never fails: `err` is always None. */
  method MessageToRecord(msg: Message, lib: Library) returns (rec: Record, err: Option<string>)
    ensures err == None
    // sender: Reply-To, then Sender, then From, then the sentinel; only index 0 counts
    ensures |msg.envelope.replyTo| > 0 ==>
      rec.from == AddressText(msg.envelope.replyTo[0]) && rec.fromName == msg.envelope.replyTo[0].personalName
    ensures |msg.envelope.replyTo| == 0 && |msg.envelope.sender| > 0 ==>
      rec.from == AddressText(msg.envelope.sender[0]) && rec.fromName == msg.envelope.sender[0].personalName
    ensures |msg.envelope.replyTo| == 0 && |msg.envelope.sender| == 0 && |msg.envelope.from| > 0 ==>
      rec.from == AddressText(msg.envelope.from[0]) && rec.fromName == msg.envelope.from[0].personalName
    ensures |msg.envelope.replyTo| == 0 && |msg.envelope.sender| == 0 && |msg.envelope.from| == 0 ==>
      rec.from == "unknown@unknown" && rec.fromName == ""
    // copied fields
    ensures rec.messageId == msg.envelope.messageId
    ensures rec.receivedAt == msg.envelope.date
    ensures rec.sizeBytes == msg.size
    // the subject keeps exactly the printable runes
    ensures rec.subject == KeepIf(lib.isPrint, msg.envelope.subject)
    // classification
    ensures rec.isSeen <==> HasFlag(msg.flags, SeenFlag)
    ensures rec.isFlagged <==> HasFlag(msg.flags, FlaggedFlag) || HasFlag(msg.flags, ImportantFlag)
    ensures rec.isReceipt <==> HasKeywordWord(lib, msg.envelope.subject, IngestReceiptWords)
    ensures rec.attachmentNames == Join(AttachmentNames(msg.bodyStructure), AttachmentSeparator)
    // everything else keeps its zero value
    ensures rec.uid == 0 && rec.seqNum == 0 && rec.to == "" && rec.body == ""
    ensures rec.attributes == [] && rec.mailBoxFolder == ""
    ensures rec.remoteDeletedAt == ZeroTime && !rec.openedAtValid && rec.openedAt == ZeroTime
  {
    var env := msg.envelope;
    var sn, fn, rn := |env.sender|, |env.from|, |env.replyTo|;
    var sender: Address;
    if rn > 1 || rn == 1 {          // case rn > 1 falls through to rn == 1
      sender := env.replyTo[0];
    } else if sn > 1 || sn == 1 {
      sender := env.sender[0];
    } else if fn > 1 || fn == 1 {
      sender := env.from[0];
    } else {
      sender := UnknownSender;
    }
    rec := EmptyRecord;
    rec := rec.(messageId := env.messageId);
    rec := rec.(from := AddressText(sender));
    rec := rec.(fromName := sender.personalName);
    rec := rec.(receivedAt := env.date);
    rec := rec.(subject := KeepIf(lib.isPrint, env.subject));
    rec := rec.(sizeBytes := msg.size);

    if exists i :: 0 <= i < |msg.flags| && msg.flags[i] == SeenFlag {
      rec := rec.(isSeen := true);
    }
    if exists i :: 0 <= i < |msg.flags| && (msg.flags[i] == FlaggedFlag || msg.flags[i] == ImportantFlag) {
      rec := rec.(isFlagged := true);
    }
    var words := lib.words(env.subject);
    if exists i :: 0 <= i < |words| && lib.toLower(words[i]) in IngestReceiptWords {
      rec := rec.(isReceipt := true);
    }

    var attachments := WalkAttachments(msg.bodyStructure, []);
    assert attachments == AttachmentNames(msg.bodyStructure);
    rec := rec.(attachmentNames := Join(attachments, AttachmentSeparator));
    err := None;
  }

  /** A single attachment whose filename is empty leaves no trace in the stored
      names: the record reads as if the message had no attachment. */
  lemma EmptyFilenameInvisible(bs: BodyStructure)
    requires AttachmentNames(bs) == [""]
    ensures HasAttachment(bs)
    ensures Join(AttachmentNames(bs), AttachmentSeparator) == ""
  {
    AttachmentNamesEmptyIff(bs);
  }

  /** Two or more attachment names are always separated, so the stored text is
      empty only when every name is empty and there is at most one of them. */
  lemma {:induction false} JoinedNamesEmpty(names: seq<string>)
    ensures Join(names, AttachmentSeparator) == "" <==> |names| == 0 || (|names| == 1 && names[0] == "")
  {
    if |names| > 1 {
      assert |Join(names, AttachmentSeparator)| >= |AttachmentSeparator|;
    }
  }
}
