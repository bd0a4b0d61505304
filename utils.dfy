/** The orchestration of services/utils.js: count the fetched messages and clients, list the
    existing client pages once, then dispatch one write per client bucket in insertion order. */
module Import {
  import opened Wrappers
  import opened Seqs
  import opened Mail
  import opened OrderedMaps
  import opened Google
  import opened Notion

  /** The remote calls importMailsIntoNotion makes, with the arguments it passes. */
  datatype Event =
    | ListExistingClients
    | AddClientMailsCall(existingClients: seq<ClientPage>, client: string, clientMails: seq<Email>)

  /** The buckets named by `keys`, concatenated in that order. */
  function FlatOver(keys: seq<string>, entries: map<string, seq<Email>>): (r: seq<Email>)
    requires forall k :: k in keys ==> k in entries
    ensures forall e :: e in r ==> exists k :: k in keys && e in entries[k]
    ensures forall k, e :: k in keys && e in entries[k] ==> e in r
  {
    if |keys| == 0 then []
    else
      var n := |keys| - 1;
      FlatOver(keys[..n], entries) + entries[keys[n]]
  }

  /** `Array.from(mails.values()).flat(1)` */
  function Flattened(m: Buckets): (r: seq<Email>)
    requires m.Valid()
    ensures forall e :: e in r <==> exists k :: k in m.entries && e in m.entries[k]
  {
    FlatOver(m.keys, m.entries)
  }

  /** The first `count` per-client writes, in key order. */
  function Calls(existing: seq<ClientPage>, m: Buckets, count: nat): (r: seq<Event>)
    requires m.Valid() && count <= |m.keys|
    ensures |r| == count
    ensures forall i :: 0 <= i < count ==> r[i].AddClientMailsCall? && r[i].client == m.keys[i]
                                           && r[i].clientMails == m.entries[m.keys[i]]
                                           && r[i].existingClients == existing
  {
    seq(count, i requires 0 <= i < count => AddClientMailsCall(existing, m.keys[i], m.entries[m.keys[i]]))
  }

  /** One more client write extends the log by that client's call. */
  lemma {:induction false} CallsStep(existing: seq<ClientPage>, m: Buckets, i: nat)
    requires m.Valid() && i < |m.keys|
    ensures Calls(existing, m, i + 1) ==
            Calls(existing, m, i) + [AddClientMailsCall(existing, m.keys[i], m.entries[m.keys[i]])]
  {
    var a, b := Calls(existing, m, i + 1), Calls(existing, m, i) + [AddClientMailsCall(existing, m.keys[i], m.entries[m.keys[i]])];
    assert forall k :: 0 <= k < i + 1 ==> a[k] == b[k];
  }

  /** importMailsIntoNotion. `listed` is the reply of the page listing, `writeResolves` whether
      the write for a client completes; a rejected call ends the run before the final message. */
  method ImportMailsIntoNotion(mails: Buckets, listed: Reply<seq<ClientPage>>, writeResolves: string -> bool)
    returns (mailCount: nat, clientCount: nat, events: seq<Event>, completed: bool)
    requires mails.Valid()
    ensures mailCount == |Flattened(mails)| && clientCount == |mails.keys|
    ensures listed.Fault? ==> events == [ListExistingClients] && !completed
    ensures listed.Ok? ==>
              var stop := FindIndex(mails.keys, (c: string) => !writeResolves(c));
              && completed == (stop == |mails.keys|)
              && events == [ListExistingClients] + Calls(listed.value, mails, if completed then stop else stop + 1)
  {
    mailCount := |Flattened(mails)|;
    clientCount := |mails.keys|;
    events := [ListExistingClients];
    completed := false;
    if listed.Fault? {
      return;
    }
    var existing := listed.value;
    var i := 0;
    while i < |mails.keys|
      invariant 0 <= i <= |mails.keys|
      invariant forall k :: 0 <= k < i ==> writeResolves(mails.keys[k])
      invariant events == [ListExistingClients] + Calls(existing, mails, i)
    {
      var client := mails.keys[i];
      CallsStep(existing, mails, i);
      events := events + [AddClientMailsCall(existing, client, mails.entries[client])];
      if !writeResolves(client) {
        FindIndexFirst(mails.keys, (c: string) => !writeResolves(c), i);
        return;
      }
      i := i + 1;
    }
    FindIndexFirst(mails.keys, (c: string) => !writeResolves(c), i);
    completed := true;
  }

  /** Each client is written to at most once: the dispatch goes through distinct keys. */
  lemma {:induction false} DispatchOncePerClient(existing: seq<ClientPage>, m: Buckets, count: nat, i: nat, j: nat)
    requires m.Valid() && count <= |m.keys| && i < count && j < count
    requires Calls(existing, m, count)[i].client == Calls(existing, m, count)[j].client
    ensures i == j
  {
  }

  lemma {:induction false} FlatOverUntouched(keys: seq<string>, entries: map<string, seq<Email>>, k: string, v: seq<Email>)
    requires forall x :: x in keys ==> x in entries
    requires k !in keys
    ensures FlatOver(keys, entries[k := v]) == FlatOver(keys, entries)
    decreases |keys|
  {
    if |keys| > 0 {
      FlatOverUntouched(keys[..|keys| - 1], entries, k, v);
    }
  }

  lemma {:induction false} FlatOverReplace(keys: seq<string>, entries: map<string, seq<Email>>, k: string, v: seq<Email>)
    requires forall x :: x in keys ==> x in entries
    requires Distinct(keys) && k in keys
    ensures multiset(FlatOver(keys, entries[k := v])) + multiset(entries[k]) ==
            multiset(FlatOver(keys, entries)) + multiset(v)
    decreases |keys|
  {
    var init := keys[..|keys| - 1];
    assert Distinct(init) by {
      assert forall a, b :: 0 <= a < b < |init| ==> init[a] == keys[a] && init[b] == keys[b];
    }
    if keys[|keys| - 1] == k {
      assert k !in init by {
        assert forall a :: 0 <= a < |init| ==> init[a] == keys[a];
      }
      FlatOverUntouched(init, entries, k, v);
    } else {
      assert k in init by {
        assert keys == init + [keys[|keys| - 1]];
      }
      FlatOverReplace(init, entries, k, v);
      FlatOverReplaceEarlier(keys, entries, k, v);
    }
  }

  /** The step of FlatOverReplace when the replaced key is not the last one. */
  lemma {:induction false} FlatOverReplaceEarlier(keys: seq<string>, entries: map<string, seq<Email>>, k: string, v: seq<Email>)
    requires forall x :: x in keys ==> x in entries
    requires |keys| > 0 && keys[|keys| - 1] != k && k in entries
    requires multiset(FlatOver(keys[..|keys| - 1], entries[k := v])) + multiset(entries[k]) ==
             multiset(FlatOver(keys[..|keys| - 1], entries)) + multiset(v)
    ensures multiset(FlatOver(keys, entries[k := v])) + multiset(entries[k]) ==
            multiset(FlatOver(keys, entries)) + multiset(v)
  {
    var init, updated := keys[..|keys| - 1], entries[k := v];
    var last := multiset(entries[keys[|keys| - 1]]);
    assert updated[keys[|keys| - 1]] == entries[keys[|keys| - 1]];
    calc {
      multiset(FlatOver(keys, updated)) + multiset(entries[k]);
      multiset(FlatOver(init, updated)) + last + multiset(entries[k]);
      (multiset(FlatOver(init, updated)) + multiset(entries[k])) + last;
      (multiset(FlatOver(init, entries)) + multiset(v)) + last;
      multiset(FlatOver(keys, entries)) + multiset(v);
    }
  }

  /** Appending a new key appends its bucket. */
  lemma {:induction false} FlatOverNewKey(keys: seq<string>, entries: map<string, seq<Email>>, k: string, v: seq<Email>)
    requires forall x :: x in keys ==> x in entries
    requires k !in keys
    ensures FlatOver(keys + [k], entries[k := v]) == FlatOver(keys, entries) + v
  {
    assert (keys + [k])[..|keys|] == keys;
    FlatOverUntouched(keys, entries, k, v);
  }

  lemma {:induction false} MultisetCancel(a: multiset<Email>, b: multiset<Email>, c: multiset<Email>)
    requires a + c == b + c
    ensures a == b
  {
    assert forall x :: a[x] == (a + c)[x] - c[x] && b[x] == (b + c)[x] - c[x];
  }

  /** Adding one message to an existing bucket adds exactly that message to the flattened buckets. */
  lemma {:induction false} FlatGroupStepExisting(m0: Buckets, name: string, e: Email)
    requires m0.Valid() && name in m0.entries
    ensures multiset(Flattened(m0.Set(name, m0.entries[name] + [e]))) == multiset(Flattened(m0)) + multiset{e}
  {
    var current := m0.entries[name];
    var m := m0.Set(name, current + [e]);
    assert m.keys == m0.keys;
    FlatOverReplace(m0.keys, m0.entries, name, current + [e]);
    assert multiset(current + [e]) == multiset(current) + multiset{e};
    MultisetCancel(multiset(Flattened(m)), multiset(Flattened(m0)) + multiset{e}, multiset(current));
  }

  /** A new bucket holding one message adds exactly that message to the flattened buckets. */
  lemma {:induction false} FlatGroupStepNew(m0: Buckets, name: string, e: Email)
    requires m0.Valid() && name !in m0.entries
    ensures multiset(Flattened(m0.Set(name, [e]))) == multiset(Flattened(m0)) + multiset{e}
  {
    assert m0.Set(name, [e]) == OrderedMap(m0.keys + [name], m0.entries[name := [e]]);
    FlatOverNewKey(m0.keys, m0.entries, name, [e]);
  }

  /** The last fetched message adds itself to the flattened buckets when it is routed, and
      nothing otherwise. */
  lemma {:induction false} GroupedFlatStep(clients: seq<Client>, es: seq<Email>)
    requires |es| > 0
    ensures var e := es[|es| - 1];
            multiset(Flattened(GroupEmails(clients, es))) ==
              multiset(Flattened(GroupEmails(clients, es[..|es| - 1])))
              + (if Route(clients, e).Some? then multiset{e} else multiset{})
  {
    var e := es[|es| - 1];
    var m0 := GroupEmails(clients, es[..|es| - 1]);
    match Route(clients, e)
    case None =>
      assert GroupEmails(clients, es) == m0;
    case Some(name) =>
      if name in m0.entries {
        assert GroupEmails(clients, es) == m0.Set(name, m0.entries[name] + [e]);
        FlatGroupStepExisting(m0, name, e);
      } else {
        assert GroupEmails(clients, es) == m0.Set(name, [] + [e]);
        assert [] + [e] == [e];
        FlatGroupStepNew(m0, name, e);
      }
  }

  /** The fetched messages that are routed to some client, in fetch order. */
  function RoutedMessages(clients: seq<Client>, es: seq<Email>): seq<Email> {
    Filter(es, (e: Email) => Route(clients, e).Some?)
  }

  lemma {:induction false} RoutedMessagesStep(clients: seq<Client>, es: seq<Email>)
    requires |es| > 0
    ensures var e := es[|es| - 1];
            RoutedMessages(clients, es) ==
              RoutedMessages(clients, es[..|es| - 1]) + (if Route(clients, e).Some? then [e] else [])
  {
  }

  /** The flattened buckets of a grouped fetch hold every message routed to a client, once,
      and nothing else. */
  lemma {:induction false} GroupedMailsAreRouted(clients: seq<Client>, es: seq<Email>)
    ensures multiset(Flattened(GroupEmails(clients, es))) == multiset(RoutedMessages(clients, es))
  {
    if |es| > 0 {
      GroupedMailsAreRouted(clients, es[..|es| - 1]);
      GroupedMailsAreRoutedStep(clients, es);
    }
  }

  lemma {:induction false} GroupedMailsAreRoutedStep(clients: seq<Client>, es: seq<Email>)
    requires |es| > 0
    requires multiset(Flattened(GroupEmails(clients, es[..|es| - 1]))) ==
             multiset(RoutedMessages(clients, es[..|es| - 1]))
    ensures multiset(Flattened(GroupEmails(clients, es))) == multiset(RoutedMessages(clients, es))
  {
    GroupedFlatStep(clients, es);
    RoutedMessagesStep(clients, es);
  }

  /** The mail count reported for a grouped fetch is the number of messages routed to a client. */
  lemma {:induction false} GroupedMailCount(clients: seq<Client>, es: seq<Email>)
    ensures |Flattened(GroupEmails(clients, es))| == |RoutedMessages(clients, es)|
  {
    GroupedMailsAreRouted(clients, es);
    assert |multiset(Flattened(GroupEmails(clients, es)))| == |Flattened(GroupEmails(clients, es))|;
    assert |multiset(RoutedMessages(clients, es))| == |RoutedMessages(clients, es)|;
  }

  // ---------------------------------------------------------------------------------------
  // How the per-client call binds its arguments

  /** A value as addClientMails receives it in one of its four parameters. */
  datatype JsArg =
    | UserConfig
    | Pages(pages: seq<ClientPage>)
    | Text(text: string)
    | Mails(mails: seq<Email>)
    | Undefined

  /** Positional binding: parameter `k` receives the k-th argument, or undefined when the call
      passes fewer. */
  function BindParam(args: seq<JsArg>, k: nat): (a: JsArg)
    ensures k < |args| ==> a == args[k]
    ensures |args| <= k ==> a == Undefined
  {
    if k < |args| then args[k] else Undefined
  }

  /** What `find` can return from either kind of array. */
  datatype Found = FoundPage(page: ClientPage) | FoundMail(mail: Email)

  /** getClientId on whatever `existingClients` and `clientName` are bound to: only an array has
      `find`, any other value throws. A page's name is a string, so a name that is not a string
      matches no page. A message has no `name`, so in an array of messages the test compares
      undefined with the name: it holds for the first message when the name is undefined too,
      and for none otherwise. */
  function LookupOnArgs(existingClients: JsArg, clientName: JsArg): (r: Reply<Option<Found>>)
    ensures r.Ok? <==> existingClients.Pages? || existingClients.Mails?
    ensures existingClients.Pages? && clientName.Text? ==>
              r == Ok(match GetClientId(existingClients.pages, clientName.text)
                      case None => None
                      case Some(p) => Some(FoundPage(p)))
    ensures existingClients.Pages? && !clientName.Text? ==> r == Ok(None)
    ensures existingClients.Mails? && clientName.Undefined? && existingClients.mails != [] ==>
              r == Ok(Some(FoundMail(existingClients.mails[0])))
    ensures existingClients.Mails? && (!clientName.Undefined? || existingClients.mails == []) ==> r == Ok(None)
  {
    match existingClients
    case Pages(ps) =>
      if clientName.Text? then
        match GetClientId(ps, clientName.text)
        case None => Ok(None)
        case Some(p) => Ok(Some(FoundPage(p)))
      else Ok(None)
    case Mails(ms) => Ok(if clientName.Undefined? && ms != [] then Some(FoundMail(ms[0])) else None)
    case _ => Fault
  }

  /** The arguments utils.js passes: three, where addClientMails declares four. */
  function CallArgsAsWritten(existing: seq<ClientPage>, client: string, clientMails: seq<Email>): seq<JsArg> {
    [Pages(existing), Text(client), Mails(clientMails)]
  }

  /** The arguments addClientMails expects: the user configuration first. */
  function CallArgsIntended(existing: seq<ClientPage>, client: string, clientMails: seq<Email>): seq<JsArg> {
    [UserConfig, Pages(existing), Text(client), Mails(clientMails)]
  }

  /** As written, `existingClients` receives the client name and `emails` is undefined, so the
      page lookup throws for every client: the first per-client call rejects. */
  lemma {:induction false} AsWrittenLookupThrows(existing: seq<ClientPage>, client: string, clientMails: seq<Email>)
    ensures var args := CallArgsAsWritten(existing, client, clientMails);
            && BindParam(args, 1) == Text(client)
            && BindParam(args, 3) == Undefined
            && LookupOnArgs(BindParam(args, 1), BindParam(args, 2)).Fault?
  {
  }

  /** With the configuration passed first, every parameter receives what its name says and the
      lookup is getClientId on the listed pages. */
  lemma {:induction false} IntendedLookupFindsPage(existing: seq<ClientPage>, client: string, clientMails: seq<Email>)
    ensures var args := CallArgsIntended(existing, client, clientMails);
            && BindParam(args, 1) == Pages(existing)
            && BindParam(args, 2) == Text(client)
            && BindParam(args, 3) == Mails(clientMails)
            && LookupOnArgs(BindParam(args, 1), BindParam(args, 2))
               == Ok(match GetClientId(existing, client)
                     case None => None
                     case Some(p) => Some(FoundPage(p)))
  {
  }
}
