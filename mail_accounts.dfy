/** Opening one IMAP connection per configured mail account and checking that
    every folder the configuration names for ingesting or pruning exists. */
module MailAccounts {
  import opened Wrappers

  datatype ActionConfig = ActionConfig(thresholdDays: int, folders: seq<string>)

  datatype AccountConfig = AccountConfig(
    hostname: string,
    port: int,
    encUser: string,
    encPassword: string,
    prune: ActionConfig,
    ingest: ActionConfig)

  /** One entry of a LIST response (RFC 3501, section 7.2.2). */
  datatype MailboxInfo = MailboxInfo(attributes: seq<string>, delimiter: string, name: string)

  /** A logged-in client session, as an opaque handle. */
  type ClientId = nat

  datatype Connection = Connection(
    client: ClientId,
    mailboxes: seq<MailboxInfo>,
    username: string,
    accountConfig: AccountConfig,
    startedAt: int)

  datatype ConnectError =
    | NoAccounts
    | ClientFailed(reason: string)
    | ListFailed(reason: string)
    | MissingIngestFolder(folder: string, account: string)
    | MissingPruneFolder(folder: string, account: string)

  /** What the network does for the connector: `newIMAPClient` (decrypt the
      credentials, dial TLS, log in) and `listMailboxes` (LIST "" "*"). */
  datatype MailServer = MailServer(
    dial: AccountConfig -> Result<ClientId, string>,
    list: ClientId -> Result<seq<MailboxInfo>, string>)

  /** The folder names of a listing, one per mailbox, in listing order. */
  function Names(ms: seq<MailboxInfo>): (r: seq<string>)
    ensures |r| == |ms|
    ensures forall i :: 0 <= i < |ms| ==> r[i] == ms[i].name
  {
    if ms == [] then [] else Names(ms[..|ms| - 1]) + [ms[|ms| - 1].name]
  }

  /** The first wanted folder, in configuration order, that is not present. */
  function FirstMissing(wanted: seq<string>, present: seq<string>): (r: Option<string>)
    ensures r.None? <==> forall i :: 0 <= i < |wanted| ==> wanted[i] in present
    ensures r.Some? ==> exists k :: 0 <= k < |wanted| && wanted[k] == r.value && r.value !in present &&
                                    forall j :: 0 <= j < k ==> wanted[j] in present
  {
    if wanted == [] then None
    else if wanted[0] !in present then Some(wanted[0])
    else
      var rest := FirstMissing(wanted[1..], present);
      assert forall i :: 1 <= i < |wanted| ==> wanted[i] == wanted[1..][i - 1];
      rest
  }

  lemma {:induction false} FirstMissingAt(wanted: seq<string>, present: seq<string>, k: nat)
    requires k < |wanted| && wanted[k] !in present
    requires forall j :: 0 <= j < k ==> wanted[j] in present
    ensures FirstMissing(wanted, present) == Some(wanted[k])
  {
    if k > 0 {
      FirstMissingAt(wanted[1..], present, k - 1);
    }
  }

  /** The outcome of connecting one account: the first failure among dialing,
      listing, the ingest folders and then the prune folders, or the connection. */
  function AccountCheck(a: AccountConfig, server: MailServer, startedAt: int): (r: Result<Connection, ConnectError>)
    ensures r.Success? <==>
      && server.dial(a).Success?
      && server.list(server.dial(a).value).Success?
      && (forall f :: f in a.ingest.folders ==> f in Names(server.list(server.dial(a).value).value))
      && (forall f :: f in a.prune.folders ==> f in Names(server.list(server.dial(a).value).value))
    ensures r.Success? ==>
      r.value == Connection(server.dial(a).value, server.list(server.dial(a).value).value, a.encUser, a, startedAt)
    ensures server.dial(a).Failure? ==> r == Failure(ClientFailed(server.dial(a).error))
    ensures server.dial(a).Success? && server.list(server.dial(a).value).Failure? ==>
      r == Failure(ListFailed(server.list(server.dial(a).value).error))
    // ingest folders are checked first: a missing one is reported even when prune folders are missing too
    ensures server.dial(a).Success? && server.list(server.dial(a).value).Success? &&
            (exists f :: f in a.ingest.folders && f !in Names(server.list(server.dial(a).value).value)) ==>
      r.Failure? && r.error.MissingIngestFolder? && r.error.folder in a.ingest.folders && r.error.account == a.encUser
    ensures r.Failure? && r.error.MissingPruneFolder? ==>
      r.error.folder in a.prune.folders && r.error.account == a.encUser &&
      forall f :: f in a.ingest.folders ==> f in Names(server.list(server.dial(a).value).value)
    // the folder reported is the first configured one the listing lacks
    ensures server.dial(a).Success? && server.list(server.dial(a).value).Success? ==>
      var names := Names(server.list(server.dial(a).value).value);
      (FirstMissing(a.ingest.folders, names).Some? ==>
         r == Failure(MissingIngestFolder(FirstMissing(a.ingest.folders, names).value, a.encUser)) &&
         r.error.folder !in names) &&
      (FirstMissing(a.ingest.folders, names).None? && FirstMissing(a.prune.folders, names).Some? ==>
         r == Failure(MissingPruneFolder(FirstMissing(a.prune.folders, names).value, a.encUser)) &&
         r.error.folder !in names)
  {
    match server.dial(a)
    case Failure(e) => Failure(ClientFailed(e))
    case Success(client) =>
      match server.list(client)
      case Failure(e) => Failure(ListFailed(e))
      case Success(folders) =>
        var names := Names(folders);
        match FirstMissing(a.ingest.folders, names)
        case Some(f) => Failure(MissingIngestFolder(f, a.encUser))
        case None =>
          match FirstMissing(a.prune.folders, names)
          case Some(f) => Failure(MissingPruneFolder(f, a.encUser))
          case None => Success(Connection(client, folders, a.encUser, a, startedAt))
  }

  predicate AllConnect(accounts: seq<AccountConfig>, server: MailServer, startedAt: nat -> int, n: nat)
    requires n <= |accounts|
  {
    forall j :: 0 <= j < n ==> AccountCheck(accounts[j], server, startedAt(j)).Success?
  }

  /** One turn of the account loop: create the client, list its folders,
      collect their names and check the configured folders against them. */
  method ConnectAccount(account: AccountConfig, server: MailServer, startedAt: int)
    returns (r: Result<Connection, ConnectError>)
    ensures r == AccountCheck(account, server, startedAt)
  {
    var dialed := server.dial(account);
    if dialed.Failure? {
      return Failure(ClientFailed(dialed.error));
    }
    var listed := server.list(dialed.value);
    if listed.Failure? {
      return Failure(ListFailed(listed.error));
    }
    var folders := listed.value;
    var folderNames: seq<string> := [];
    for m := 0 to |folders|
      invariant |folderNames| == m
      invariant forall j :: 0 <= j < m ==> folderNames[j] == folders[j].name
    {
      folderNames := folderNames + [folders[m].name];
    }
    assert folderNames == Names(folders);

    var wanted := account.ingest.folders;
    for f := 0 to |wanted|
      invariant forall j :: 0 <= j < f ==> wanted[j] in folderNames
    {
      if wanted[f] !in folderNames {
        FirstMissingAt(wanted, folderNames, f);
        return Failure(MissingIngestFolder(wanted[f], account.encUser));
      }
    }
    wanted := account.prune.folders;
    for f := 0 to |wanted|
      invariant forall j :: 0 <= j < f ==> wanted[j] in folderNames
    {
      if wanted[f] !in folderNames {
        FirstMissingAt(wanted, folderNames, f);
        return Failure(MissingPruneFolder(wanted[f], account.encUser));
      }
    }
    r := Success(Connection(dialed.value, folders, account.encUser, account, startedAt));
  }

  /** NewMailAccountConnections.  `startedAt(i)` is the clock reading taken
      when the i-th connection is recorded.  On failure the result is empty.
      `tried` counts the accounts for which a client was created (or its
      creation attempted). */
  method NewMailAccountConnections(accounts: seq<AccountConfig>, server: MailServer, startedAt: nat -> int)
    returns (conns: seq<Connection>, err: Option<ConnectError>, ghost tried: nat)
    ensures |accounts| == 0 ==> err == Some(NoAccounts) && tried == 0
    ensures err.Some? ==> conns == []
    ensures err.None? <==> |accounts| > 0 && AllConnect(accounts, server, startedAt, |accounts|)
    ensures err.None? ==> (tried == |conns| == |accounts| &&
      forall i :: 0 <= i < |accounts| ==> AccountCheck(accounts[i], server, startedAt(i)) == Success(conns[i]))
    // the first failing account decides the error; later accounts are never tried
    ensures err.Some? && |accounts| > 0 ==>
      1 <= tried <= |accounts| && AllConnect(accounts, server, startedAt, tried - 1) &&
      AccountCheck(accounts[tried - 1], server, startedAt(tried - 1)) == Failure(err.value)
  {
    if |accounts| == 0 {
      return [], Some(NoAccounts), 0;
    }
    conns := [];
    var k := 0;
    while k < |accounts|
      invariant 0 <= k <= |accounts|
      invariant AllConnect(accounts, server, startedAt, k)
      invariant |conns| == k
      invariant forall j :: 0 <= j < k ==> AccountCheck(accounts[j], server, startedAt(j)) == Success(conns[j])
    {
      var r := ConnectAccount(accounts[k], server, startedAt(k));
      if r.Failure? {
        return [], Some(r.error), k + 1;
      }
      conns := conns + [r.value];
      k := k + 1;
    }
    err, tried := None, k;
  }
}
