/** The prune run of the outlook cleaner: classify every message of the archive
    folder into sequence-number buckets, then issue one MOVE (RFC 6851) per
    non-empty bucket, stopping at the first failed move. */
module MailPrune {
  import opened Text
  import opened Imap
  import opened Wrappers
  import opened MailAccounts
  import MailIngest

  /** Subject words that mark a receipt when pruning; unlike ingest, the list
      has no "confirmation". */
  const PruneReceiptWords: seq<string> := [
    "refund", "shipped", "receipt",
    "order", "confirm", "boarding", "delivered",
    "reservation"]

  const ArchiveFolder := "Inbox/z-archive"
  const FlaggedFolder := "Inbox/z-archive/flagged"
  const HasAttachmentFolder := "Inbox/z-archive/has-attachment"
  const ReceiptFolder := "Inbox/z-archive/receipt"

  datatype Category = Flagged | WithAttachment | Receipt | Stale

  /** Whether a message belongs in a bucket.  The buckets are not exclusive,
      and every message is stale. */
  predicate InBucket(c: Category, lib: Library, m: Message)
  {
    match c
    case Flagged => IsFlaggedBy(m.flags)
    case WithAttachment => AttachmentNames(m.bodyStructure) != []
    case Receipt => MailIngest.HasKeywordWord(lib, m.envelope.subject, PruneReceiptWords)
    case Stale => true
  }

  /** The sequence numbers of the messages in bucket `c`, in arrival order. */
  function Bucket(c: Category, lib: Library, ms: seq<Message>): (r: seq<uint32>)
    ensures |r| <= |ms|
  {
    if ms == [] then []
    else Bucket(c, lib, ms[..|ms| - 1]) + (if InBucket(c, lib, ms[|ms| - 1]) then [ms[|ms| - 1].seqNum] else [])
  }

  datatype Buckets = Buckets(
    receipt: seq<uint32>,
    flagged: seq<uint32>,
    attachment: seq<uint32>,
    stale: seq<uint32>)

  /** The classification loop over the fetched messages. */
  method Classify(messages: seq<Message>, lib: Library) returns (b: Buckets)
    ensures b.flagged == Bucket(Flagged, lib, messages)
    ensures b.attachment == Bucket(WithAttachment, lib, messages)
    ensures b.receipt == Bucket(Receipt, lib, messages)
    ensures b.stale == Bucket(Stale, lib, messages)
  {
    var receipt, flagged, attachment, stale := [], [], [], [];
    var i := 0;
    while i < |messages|
      invariant 0 <= i <= |messages|
      invariant flagged == Bucket(Flagged, lib, messages[..i])
      invariant attachment == Bucket(WithAttachment, lib, messages[..i])
      invariant receipt == Bucket(Receipt, lib, messages[..i])
      invariant stale == Bucket(Stale, lib, messages[..i])
    {
      var msg := messages[i];
      BucketStep(lib, messages, i);
      if exists j :: 0 <= j < |msg.flags| && (msg.flags[j] == FlaggedFlag || msg.flags[j] == ImportantFlag) {
        flagged := flagged + [msg.seqNum];
      }
      var words := lib.words(msg.envelope.subject);
      if exists j :: 0 <= j < |words| && lib.toLower(words[j]) in PruneReceiptWords {
        receipt := receipt + [msg.seqNum];
      }
      var attachments := WalkAttachments(msg.bodyStructure, []);
      assert attachments == AttachmentNames(msg.bodyStructure);
      if |attachments| != 0 {
        attachment := attachment + [msg.seqNum];
      }
      stale := stale + [msg.seqNum];
      i := i + 1;
    }
    assert messages[..i] == messages;
    b := Buckets(receipt, flagged, attachment, stale);
  }

  /** One more message extends each bucket by its number when it belongs. */
  lemma BucketStep(lib: Library, ms: seq<Message>, i: nat)
    requires i < |ms|
    ensures forall c :: (Bucket(c, lib, ms[..i + 1]) ==
                          Bucket(c, lib, ms[..i]) + (if InBucket(c, lib, ms[i]) then [ms[i].seqNum] else []))
  {
    assert ms[..i + 1][..i] == ms[..i];
  }

  /** A sequence number is in a bucket exactly when some message carrying it
      belongs there. */
  lemma {:induction false} BucketMembers(c: Category, lib: Library, ms: seq<Message>, n: uint32)
    ensures n in Bucket(c, lib, ms) <==> exists i :: 0 <= i < |ms| && ms[i].seqNum == n && InBucket(c, lib, ms[i])
  {
    if ms != [] {
      var init, last := ms[..|ms| - 1], ms[|ms| - 1];
      BucketMembers(c, lib, init, n);
      var extra := if InBucket(c, lib, last) then [last.seqNum] else [];
      assert Bucket(c, lib, ms) == Bucket(c, lib, init) + extra;
      if n in Bucket(c, lib, init) {
        var i :| 0 <= i < |init| && init[i].seqNum == n && InBucket(c, lib, init[i]);
        assert ms[i] == init[i];
      } else if n in extra {
        assert ms[|ms| - 1].seqNum == n && InBucket(c, lib, ms[|ms| - 1]);
      }
      if exists i :: 0 <= i < |ms| && ms[i].seqNum == n && InBucket(c, lib, ms[i]) {
        var i :| 0 <= i < |ms| && ms[i].seqNum == n && InBucket(c, lib, ms[i]);
        if i < |init| {
          assert init[i] == ms[i];
        }
      }
    }
  }

  /** Every bucket entry comes from some message, in order: entries of a
      bucket are increasing whenever the arrival sequence numbers are. */
  lemma {:induction false} BucketIncreasing(c: Category, lib: Library, ms: seq<Message>)
    requires forall i, j :: 0 <= i < j < |ms| ==> ms[i].seqNum < ms[j].seqNum
    ensures var r := Bucket(c, lib, ms);
      forall i, j :: 0 <= i < j < |r| ==> r[i] < r[j]
  {
    if ms != [] {
      var init := ms[..|ms| - 1];
      BucketIncreasing(c, lib, init);
      var r0 := Bucket(c, lib, init);
      forall k | 0 <= k < |r0| ensures r0[k] < ms[|ms| - 1].seqNum {
        BucketMembers(c, lib, init, r0[k]);
      }
    }
  }

  /** Each message is in the stale bucket: it holds every sequence number. */
  lemma {:induction false} StaleIsEverything(lib: Library, ms: seq<Message>)
    ensures |Bucket(Stale, lib, ms)| == |ms|
    ensures forall i :: 0 <= i < |ms| ==> Bucket(Stale, lib, ms)[i] == ms[i].seqNum
  {
    if ms != [] {
      StaleIsEverything(lib, ms[..|ms| - 1]);
    }
  }

  /** A subject whose only word is "Confirmation" is a receipt when ingesting
      and not when pruning. */
  lemma ConfirmationOnlyAtIngest(lib: Library, m: Message)
    requires lib.words(m.envelope.subject) == ["Confirmation"]
    requires lib.toLower("Confirmation") == "confirmation"
    ensures MailIngest.HasKeywordWord(lib, m.envelope.subject, MailIngest.IngestReceiptWords)
    ensures !InBucket(Receipt, lib, m)
  {
    var ws := lib.words(m.envelope.subject);
    assert MailIngest.IngestReceiptWords[3] == "confirmation";
    assert lib.toLower(ws[0]) in MailIngest.IngestReceiptWords;
  }

  /** One planned MOVE: these sequence numbers to that folder. */
  datatype MoveOp = MoveOp(ids: seq<uint32>, destFolder: string)

  /** The moves in their fixed order; the stale bucket gets none. */
  function Plan(b: Buckets): seq<MoveOp>
  {
    [MoveOp(b.flagged, FlaggedFolder), MoveOp(b.attachment, HasAttachmentFolder), MoveOp(b.receipt, ReceiptFolder)]
  }

  /** The moves issued for `ops` when the server carries out exactly the moves
      `accepts` allows: empty buckets are skipped, and a rejected move is the
      last one issued. */
  function Issued(ops: seq<MoveOp>, accepts: MoveOp -> bool): (r: seq<MoveOp>)
    ensures |r| <= |ops|
    ensures forall k :: 0 <= k < |r| ==> r[k].ids != [] && r[k] in ops
  {
    if ops == [] then []
    else if ops[0].ids == [] then Issued(ops[1..], accepts)
    else if accepts(ops[0]) then [ops[0]] + Issued(ops[1..], accepts)
    else [ops[0]]
  }

  /** Some issued move was rejected. */
  function MoveFails(ops: seq<MoveOp>, accepts: MoveOp -> bool): bool
  {
    if ops == [] then false
    else if ops[0].ids == [] then MoveFails(ops[1..], accepts)
    else !accepts(ops[0]) || MoveFails(ops[1..], accepts)
  }

  /** The ops that have something to move. */
  function NonEmpty(ops: seq<MoveOp>): (r: seq<MoveOp>)
    ensures forall k :: 0 <= k < |r| ==> r[k].ids != []
  {
    if ops == [] then []
    else (if ops[0].ids == [] then [] else [ops[0]]) + NonEmpty(ops[1..])
  }

  /** The moves issued are the non-empty buckets in order, up to the point
      where the run stops. */
  lemma {:induction false} IssuedIsPrefix(ops: seq<MoveOp>, accepts: MoveOp -> bool)
    ensures |Issued(ops, accepts)| <= |NonEmpty(ops)|
    ensures Issued(ops, accepts) == NonEmpty(ops)[..|Issued(ops, accepts)|]
  {
    if ops != [] {
      IssuedIsPrefix(ops[1..], accepts);
    }
  }

  /** Every issued move but the last was carried out. */
  lemma {:induction false} IssuedAcceptedBeforeLast(ops: seq<MoveOp>, accepts: MoveOp -> bool)
    ensures forall k :: 0 <= k < |Issued(ops, accepts)| - 1 ==> accepts(Issued(ops, accepts)[k])
  {
    if ops != [] {
      var rest := Issued(ops[1..], accepts);
      IssuedAcceptedBeforeLast(ops[1..], accepts);
      var r := Issued(ops, accepts);
      if ops[0].ids == [] {
        assert r == rest;
      } else if accepts(ops[0]) {
        assert r == [ops[0]] + rest;
        forall k | 0 <= k < |r| - 1 ensures accepts(r[k]) {
          if k > 0 {
            assert r[k] == rest[k - 1];
            assert accepts(rest[k - 1]);
          }
        }
      }
    }
  }

  /** The run fails exactly when some non-empty bucket's move is rejected; it
      then ends with that move, and otherwise every non-empty bucket moved. */
  lemma FirstFailureEnds(ops: seq<MoveOp>, accepts: MoveOp -> bool)
    ensures MoveFails(ops, accepts) <==> exists k :: 0 <= k < |NonEmpty(ops)| && !accepts(NonEmpty(ops)[k])
    ensures MoveFails(ops, accepts) ==> Issued(ops, accepts) != [] && !accepts(Issued(ops, accepts)[|Issued(ops, accepts)| - 1])
    ensures !MoveFails(ops, accepts) ==> Issued(ops, accepts) == NonEmpty(ops)
  {
    MoveFailsIff(ops, accepts);
    FailedRunEndsRejected(ops, accepts);
    CleanRunMovesAll(ops, accepts);
  }

  lemma {:induction false} MoveFailsIff(ops: seq<MoveOp>, accepts: MoveOp -> bool)
    ensures MoveFails(ops, accepts) <==> exists k :: 0 <= k < |NonEmpty(ops)| && !accepts(NonEmpty(ops)[k])
  {
    if ops != [] {
      MoveFailsIff(ops[1..], accepts);
      var tail := NonEmpty(ops[1..]);
      if ops[0].ids != [] {
        var all := NonEmpty(ops);
        assert all == [ops[0]] + tail;
        if MoveFails(ops, accepts) {
          if accepts(ops[0]) {
            var k :| 0 <= k < |tail| && !accepts(tail[k]);
            assert all[k + 1] == tail[k];
          } else {
            assert !accepts(all[0]);
          }
        }
        if exists k :: 0 <= k < |all| && !accepts(all[k]) {
          var k :| 0 <= k < |all| && !accepts(all[k]);
          if k > 0 {
            assert all[k] == tail[k - 1];
          }
        }
      } else {
        assert NonEmpty(ops) == tail;
      }
    }
  }

  lemma {:induction false} FailedRunEndsRejected(ops: seq<MoveOp>, accepts: MoveOp -> bool)
    ensures MoveFails(ops, accepts) ==> Issued(ops, accepts) != [] && !accepts(Issued(ops, accepts)[|Issued(ops, accepts)| - 1])
  {
    if ops != [] {
      FailedRunEndsRejected(ops[1..], accepts);
      if ops[0].ids != [] && accepts(ops[0]) {
        var rest := Issued(ops[1..], accepts);
        assert Issued(ops, accepts) == [ops[0]] + rest;
      }
    }
  }

  lemma {:induction false} CleanRunMovesAll(ops: seq<MoveOp>, accepts: MoveOp -> bool)
    ensures !MoveFails(ops, accepts) ==> Issued(ops, accepts) == NonEmpty(ops)
  {
    if ops != [] {
      CleanRunMovesAll(ops[1..], accepts);
    }
  }

  /** The move loop: skip empty buckets, issue a MOVE for the others, stop at
      the first error.  `issued` is the trace of MOVE commands sent. */
  method RunMoves(ops: seq<MoveOp>, accepts: MoveOp -> bool) returns (issued: seq<MoveOp>, failed: bool)
    ensures issued == Issued(ops, accepts)
    ensures failed == MoveFails(ops, accepts)
  {
    issued := [];
    var i := 0;
    while i < |ops|
      invariant 0 <= i <= |ops|
      invariant issued + Issued(ops[i..], accepts) == Issued(ops, accepts)
      invariant MoveFails(ops[i..], accepts) == MoveFails(ops, accepts)
    {
      var op := ops[i];
      assert ops[i..][1..] == ops[i+1..];
      if |op.ids| == 0 {
        i := i + 1;
        continue;
      }
      issued := issued + [op];
      if !accepts(op) {
        assert issued == Issued(ops, accepts);
        return issued, true;
      }
      i := i + 1;
    }
    failed := false;
  }

  datatype PruneOutcome =
    | NoConnection(error: ConnectError)
    | ArchiveNotFound
    | SelectFailed
    | SearchFailed
    | Pruned(buckets: Buckets, moves: seq<MoveOp>, moveFailed: bool)

  /** What the archive folder's session does: whether SELECT and SEARCH
      succeed, the messages the FETCH of the searched set streams back, and
      which MOVE commands succeed. */
  datatype ArchiveSession = ArchiveSession(
    selects: bool,
    searches: bool,
    fetched: seq<Message>,
    accepts: MoveOp -> bool)

  /** Every configured account connected, so there is a first connection. */
  predicate Connected(accounts: seq<AccountConfig>, server: MailServer, startedAt: nat -> int)
  {
    |accounts| > 0 && AllConnect(accounts, server, startedAt, |accounts|)
  }

  /** The first account's listing holds the archive folder. */
  predicate ArchiveListed(accounts: seq<AccountConfig>, server: MailServer, startedAt: nat -> int)
    requires Connected(accounts, server, startedAt)
  {
    ArchiveFolder in Names(AccountCheck(accounts[0], server, startedAt(0)).value.mailboxes)
  }

  /** CustomPrune on the first configured account's "Inbox/z-archive".  Each
      failure ends the run at once: the connection, the folder lookup, SELECT
      and SEARCH, in that order. */
  method CustomPrune(accounts: seq<AccountConfig>, server: MailServer, startedAt: nat -> int,
                     session: ArchiveSession, lib: Library)
    returns (out: PruneOutcome)
    ensures |accounts| == 0 ==> out == NoConnection(NoAccounts)
    ensures out.NoConnection? <==> !Connected(accounts, server, startedAt)
    // the error is that of the first account that fails to connect
    ensures out.NoConnection? && |accounts| > 0 ==>
      exists k :: 0 <= k < |accounts| && AllConnect(accounts, server, startedAt, k) &&
                  AccountCheck(accounts[k], server, startedAt(k)) == Failure(out.error)
    ensures out == ArchiveNotFound <==>
      Connected(accounts, server, startedAt) && !ArchiveListed(accounts, server, startedAt)
    ensures out == SelectFailed <==>
      Connected(accounts, server, startedAt) && ArchiveListed(accounts, server, startedAt) && !session.selects
    ensures out == SearchFailed <==>
      Connected(accounts, server, startedAt) && ArchiveListed(accounts, server, startedAt) &&
      session.selects && !session.searches
    ensures out.Pruned? <==>
      Connected(accounts, server, startedAt) && ArchiveListed(accounts, server, startedAt) &&
      session.selects && session.searches
    ensures out.Pruned? ==>
      && out.buckets.flagged == Bucket(Flagged, lib, session.fetched)
      && out.buckets.attachment == Bucket(WithAttachment, lib, session.fetched)
      && out.buckets.receipt == Bucket(Receipt, lib, session.fetched)
      && out.buckets.stale == Bucket(Stale, lib, session.fetched)
      && out.moves == Issued(Plan(out.buckets), session.accepts)
      && out.moveFailed == MoveFails(Plan(out.buckets), session.accepts)
  {
    var conns, err, tried := NewMailAccountConnections(accounts, server, startedAt);
    if err.Some? {
      assert |accounts| > 0 ==> AccountCheck(accounts[tried - 1], server, startedAt(tried - 1)) == Failure(err.value);
      return NoConnection(err.value);
    }
    var conn := conns[0];   // non-empty: zero accounts is an error
    var found := false;
    for k := 0 to |conn.mailboxes|
      invariant found <==> exists j :: 0 <= j < k && conn.mailboxes[j].name == ArchiveFolder
    {
      if conn.mailboxes[k].name == ArchiveFolder {
        found := true;
      }
    }
    assert found <==> ArchiveFolder in Names(conn.mailboxes);
    if !found {
      return ArchiveNotFound;
    }
    if !session.selects {
      return SelectFailed;
    }
    if !session.searches {
      return SearchFailed;
    }
    var buckets := Classify(session.fetched, lib);
    var moves, failed := RunMoves(Plan(buckets), session.accepts);
    out := Pruned(buckets, moves, failed);
  }
}
