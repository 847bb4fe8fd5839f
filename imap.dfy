/** The IMAP message as the mail client library hands it to the outlook cleaner
    (envelope, flags and body structure of RFC 3501, section 7.4.2), and the
    pre-order walk over a body structure. */
module Imap {

  /** An unsigned 32-bit integer (`uint32`): sequence numbers, UIDs, sizes. */
  newtype uint32 = x: int | 0 <= x < 0x1_0000_0000

  /** System flags (RFC 3501, section 2.3.2) and the `$Important` keyword of
      RFC 8457, as the library spells them. */
  const SeenFlag := "\\Seen"
  const FlaggedFlag := "\\Flagged"
  const ImportantFlag := "$Important"

  datatype Address = Address(
    personalName: string,
    atDomainList: string,
    mailboxName: string,
    hostName: string)

  /** `Address.Address()` of the library: the "mailbox@host" form. */
  function AddressText(a: Address): string
  {
    a.mailboxName + "@" + a.hostName
  }

  /** Dates are abstract instants (whole hours since an epoch). */
  type Instant = int

  datatype Envelope = Envelope(
    date: Instant,
    subject: string,
    from: seq<Address>,
    sender: seq<Address>,
    replyTo: seq<Address>,
    to: seq<Address>,
    messageId: string)

  /** One node of a message's MIME structure.  `filename` is what the library's
      `Filename()` returns for this part ("" when it has none). */
  datatype BodyStructure = BodyStructure(
    mimeType: string,
    mimeSubType: string,
    disposition: string,
    filename: string,
    parts: seq<BodyStructure>)

  datatype Message = Message(
    seqNum: uint32,
    uid: uint32,
    flags: seq<string>,
    envelope: Envelope,
    size: uint32,
    bodyStructure: BodyStructure)

  /** The order in which `BodyStructure.Walk` visits the parts: the node itself,
      then each child's walk in turn (the callback always returns true, so the
      walk never prunes a subtree). */
  function PreOrder(bs: BodyStructure): (r: seq<BodyStructure>)
    ensures |r| >= 1 && r[0] == bs
    decreases bs
  {
    [bs] + PreOrderAll(bs.parts)
  }

  function PreOrderAll(ps: seq<BodyStructure>): seq<BodyStructure>
    decreases ps
  {
    if ps == [] then [] else PreOrder(ps[0]) + PreOrderAll(ps[1..])
  }

  lemma {:induction false} PreOrderAllSnoc(ps: seq<BodyStructure>, p: BodyStructure)
    ensures PreOrderAll(ps + [p]) == PreOrderAll(ps) + PreOrder(p)
  {
    if ps == [] {
      assert ps + [p] == [p];
      assert [p][1..] == [];
    } else {
      assert (ps + [p])[1..] == ps[1..] + [p];
      PreOrderAllSnoc(ps[1..], p);
    }
  }

  /** Every child's walk appears, whole and in order, inside its parent's. */
  lemma {:induction false} ChildWalkInside(bs: BodyStructure, i: nat)
    requires i < |bs.parts|
    ensures forall q :: q in PreOrder(bs.parts[i]) ==> q in PreOrder(bs)
  {
    var ps := bs.parts;
    assert ps == ps[..i] + [ps[i]] + ps[i+1..];
    PreOrderAllSplit(ps[..i] + [ps[i]], ps[i+1..]);
    PreOrderAllSnoc(ps[..i], ps[i]);
  }

  lemma {:induction false} PreOrderAllSplit(a: seq<BodyStructure>, b: seq<BodyStructure>)
    ensures PreOrderAll(a + b) == PreOrderAll(a) + PreOrderAll(b)
  {
    if a == [] {
      assert a + b == b;
    } else {
      assert (a + b)[1..] == a[1..] + b;
      PreOrderAllSplit(a[1..], b);
    }
  }

  /** `strings.EqualFold(d, "attachment")`.  No rune outside ASCII case-folds
      to any of the letters a, t, c, h, m, e, n, so comparing ASCII
      case-insensitively is exactly Unicode simple folding here. */
  predicate IsAttachment(part: BodyStructure)
  {
    AsciiFoldEquals(part.disposition, "attachment")
  }

  function AsciiLowerRune(c: char): (r: char)
    ensures 'A' <= c <= 'Z' ==> r as int == c as int + 32
    ensures !('A' <= c <= 'Z') ==> r == c
  {
    if 'A' <= c <= 'Z' then (c as int + 32) as char else c
  }

  predicate AsciiFoldEquals(a: string, b: string)
  {
    |a| == |b| && forall i :: 0 <= i < |a| ==> AsciiLowerRune(a[i]) == AsciiLowerRune(b[i])
  }

  /** Filenames of the attachment parts of a flat list of parts, in list order. */
  function AttachmentNamesOf(parts: seq<BodyStructure>): (r: seq<string>)
    ensures |r| <= |parts|
  {
    if parts == [] then []
    else (if IsAttachment(parts[0]) then [parts[0].filename] else []) + AttachmentNamesOf(parts[1..])
  }

  lemma {:induction false} AttachmentNamesOfConcat(a: seq<BodyStructure>, b: seq<BodyStructure>)
    ensures AttachmentNamesOf(a + b) == AttachmentNamesOf(a) + AttachmentNamesOf(b)
  {
    if a == [] {
      assert a + b == b;
    } else {
      var ab := a + b;
      assert ab[0] == a[0];
      assert ab[1..] == a[1..] + b;
      AttachmentNamesOfConcat(a[1..], b);
      var head := if IsAttachment(a[0]) then [a[0].filename] else [];
      assert AttachmentNamesOf(ab) == head + AttachmentNamesOf(ab[1..]);
      assert AttachmentNamesOf(a) == head + AttachmentNamesOf(a[1..]);
    }
  }

  /** There is a name for each attachment part, so the list is empty exactly
      when no part is an attachment (whatever the filenames are). */
  lemma {:induction false} AttachmentNamesOfEmpty(parts: seq<BodyStructure>)
    ensures AttachmentNamesOf(parts) == [] <==> forall i :: 0 <= i < |parts| ==> !IsAttachment(parts[i])
  {
    if parts != [] {
      AttachmentNamesOfEmpty(parts[1..]);
      if AttachmentNamesOf(parts) == [] {
        forall i | 0 <= i < |parts| ensures !IsAttachment(parts[i]) {
          if i > 0 { assert parts[i] == parts[1..][i-1]; }
        }
      }
    }
  }

  /** The attachment filenames of a whole body structure, in walk order. */
  function AttachmentNames(bs: BodyStructure): seq<string>
  {
    AttachmentNamesOf(PreOrder(bs))
  }

  predicate HasAttachment(bs: BodyStructure)
  {
    exists q :: q in PreOrder(bs) && IsAttachment(q)
  }

  lemma AttachmentNamesEmptyIff(bs: BodyStructure)
    ensures AttachmentNames(bs) != [] <==> HasAttachment(bs)
  {
    AttachmentNamesOfEmpty(PreOrder(bs));
  }

  /** A part nested at any depth is reached by the walk. */
  lemma NestedAttachmentFound(bs: BodyStructure, i: nat)
    requires i < |bs.parts| && HasAttachment(bs.parts[i])
    ensures HasAttachment(bs)
  {
    ChildWalkInside(bs, i);
  }

  /** `lo.Find(flags, f == want)` reports a hit. */
  predicate HasFlag(flags: seq<string>, want: string)
  {
    exists i :: 0 <= i < |flags| && flags[i] == want
  }

  /** The flagged test shared by ingest and prune: \Flagged or $Important. */
  predicate IsFlaggedBy(flags: seq<string>)
  {
    exists i :: 0 <= i < |flags| && (flags[i] == FlaggedFlag || flags[i] == ImportantFlag)
  }

  /** The `Walk` callback of classification: visiting a part whose disposition
      is "attachment" appends its filename to the accumulated list, and the walk
      always goes on into the children. */
  method WalkAttachments(part: BodyStructure, acc: seq<string>) returns (out: seq<string>)
    ensures out == acc + AttachmentNames(part)
    decreases part
  {
    out := acc;
    if IsAttachment(part) {
      out := out + [part.filename];
    }
    assert out == acc + AttachmentNamesOf([part]);
    var i := 0;
    while i < |part.parts|
      invariant 0 <= i <= |part.parts|
      invariant out == acc + AttachmentNamesOf([part]) + AttachmentNamesOf(PreOrderAll(part.parts[..i]))
    {
      var child := part.parts[i];
      out := WalkAttachments(child, out);
      assert part.parts[..i+1] == part.parts[..i] + [child];
      PreOrderAllSnoc(part.parts[..i], child);
      AttachmentNamesOfConcat(PreOrderAll(part.parts[..i]), PreOrder(child));
      i := i + 1;
    }
    assert part.parts[..i] == part.parts;
    AttachmentNamesOfConcat([part], PreOrderAll(part.parts));
  }
}
