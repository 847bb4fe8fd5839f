/** The "newest messages" fetch of the ingest run: select the folder, compute
    the sequence-number window of the last three messages (RFC 3501, section
    2.3.1.2) without unsigned underflow, issue FETCH and SEARCH. */
module FetchWindow {
  import opened Imap
  import opened Wrappers

  /** A sequence-number range `from:to` as handed to `SeqSet.AddRange`. */
  datatype Window = Window(from: uint32, to: uint32)

  /** Whether sequence number `k` lies in the range. */
  predicate Covers(w: Window, k: int)
  {
    w.from as int <= k <= w.to as int
  }

  /** The window for a mailbox holding `messages` messages.  The subtraction is
      guarded, so the start never wraps around below 1. */
  function NewWindow(messages: uint32): (w: Window)
    ensures w.to == messages
    ensures w.from >= 1
    ensures messages > 2 ==> w.from as int == messages as int - 2
    ensures messages <= 2 ==> w.from == 1
    // exactly the last three sequence numbers of the mailbox (fewer if it is smaller)
    ensures forall k :: Covers(w, k) <==> 1 <= k <= messages as int && k > messages as int - 3
  {
    var from: uint32 := if messages > 2 then messages - 2 else 1;
    Window(from, messages)
  }

  /** An empty mailbox yields the range 1:0, which covers no sequence number. */
  lemma EmptyMailboxWindow()
    ensures NewWindow(0) == Window(1, 0)
    ensures forall k :: !Covers(NewWindow(0), k)
  {
  }

  /** A mailbox of three or more messages gives a window of exactly three. */
  lemma {:induction false} WindowHoldsThree(messages: uint32, k: int)
    requires messages >= 3
    requires Covers(NewWindow(messages), k)
    ensures k in {messages as int - 2, messages as int - 1, messages as int}
  {
  }

  /** What the selected folder's session does: SELECT gives the message count
      or an error; SEARCH (for unseen messages) may fail; FETCH errors are only
      logged and so are not part of the model. */
  datatype FolderSession = FolderSession(
    select: string -> Result<uint32, string>,
    searchError: string -> Option<string>)

  /** fetchNewMessages.  `selected` is the folder that was selected and
      `fetched` the window whose FETCH was issued, if any. */
  method FetchNewMessages(folders: seq<string>, session: FolderSession)
    returns (result: seq<Message>, err: Option<string>, selected: Option<string>, fetched: Option<Window>)
    // the fetched messages are never appended: the result is always empty
    ensures result == []
    ensures folders == [] ==> err == None && selected == None && fetched == None
    // only the first folder is ever looked at
    ensures folders != [] ==> selected == Some(folders[0])
    ensures folders != [] && session.select(folders[0]).Failure? ==>
      err == Some(session.select(folders[0]).error) && fetched == None
    ensures folders != [] && session.select(folders[0]).Success? ==>
      fetched == Some(NewWindow(session.select(folders[0]).value)) && err == session.searchError(folders[0])
  {
    result, err, selected, fetched := [], None, None, None;
    // The loop over `folders` returns during its first turn, so it is the
    // first folder or nothing.
    if |folders| > 0 {
      var folder := folders[0];
      selected := Some(folder);
      var mbox := session.select(folder);
      if mbox.Failure? {
        return result, Some(mbox.error), selected, fetched;
      }
      var window := NewWindow(mbox.value);
      fetched := Some(window);
      err := session.searchError(folder);
    }
  }
}
