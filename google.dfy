/** The Gmail side of the import (services/google.js): the configured client table, the search
    query, the normalisation of fetched messages, their grouping by client, the idempotency
    label and the token-expiry test. Remote calls are replies given as inputs; base64url
    decoding and the HTML-to-Markdown conversion are function parameters. */
module Google {
  import opened Wrappers
  import opened Seqs
  import opened Text
  import opened OrderedMaps
  import opened Mail

  /** Name of the label that marks a message as already imported. */
  const ImportedLabelName := "importedInNotion"

  /** The fetch result: client name to that client's messages, in order of first match. */
  type Buckets = OrderedMap<string, seq<Email>>

  // ---------------------------------------------------------------------------------------
  // The configured client table

  /** Every configured address fragment: client order, then order within the client. */
  function HandledAddresses(clients: seq<Client>): seq<string> {
    if |clients| == 0 then []
    else HandledAddresses(clients[..|clients| - 1]) + clients[|clients| - 1].emailAddresses
  }

  /** Exactly the fragments of the configured clients are handled. */
  lemma {:induction false} HandledAddressesMembers(clients: seq<Client>)
    ensures forall i, j :: 0 <= i < |clients| && 0 <= j < |clients[i].emailAddresses| ==>
              clients[i].emailAddresses[j] in HandledAddresses(clients)
    ensures forall a :: a in HandledAddresses(clients) ==> exists i :: 0 <= i < |clients| && a in clients[i].emailAddresses
  {
    if |clients| > 0 {
      var n := |clients| - 1;
      HandledAddressesMembers(clients[..n]);
      forall i, j | 0 <= i < |clients| && 0 <= j < |clients[i].emailAddresses|
        ensures clients[i].emailAddresses[j] in HandledAddresses(clients)
      {
        if i < n {
          assert clients[..n][i] == clients[i];
        }
      }
      forall a | a in HandledAddresses(clients)
        ensures exists i :: 0 <= i < |clients| && a in clients[i].emailAddresses
      {
        if a in HandledAddresses(clients[..n]) {
          var i :| 0 <= i < n && a in clients[..n][i].emailAddresses;
          assert clients[..n][i] == clients[i];
        } else {
          assert a in clients[n].emailAddresses;
        }
      }
    }
  }

  lemma {:induction false} HandledAddressesAppend(a: seq<Client>, b: seq<Client>)
    ensures HandledAddresses(a + b) == HandledAddresses(a) + HandledAddresses(b)
    decreases |b|
  {
    if |b| == 0 {
      assert a + b == a;
    } else {
      var b0, last := b[..|b| - 1], b[|b| - 1];
      assert (a + b)[..|a + b| - 1] == a + b0;
      assert (a + b)[|a + b| - 1] == last;
      HandledAddressesAppend(a, b0);
      assert HandledAddresses(a + b) == HandledAddresses(a + b0) + last.emailAddresses;
      assert HandledAddresses(b) == HandledAddresses(b0) + last.emailAddresses;
    }
  }

  /** Client i's fragments sit, in their own order and with duplicates kept, between those of
      the clients before it and those of the clients after it. */
  lemma {:induction false} HandledAddressesLayout(clients: seq<Client>, i: nat)
    requires i < |clients|
    ensures HandledAddresses(clients)
         == HandledAddresses(clients[..i]) + clients[i].emailAddresses + HandledAddresses(clients[i + 1..])
  {
    var left, mid, right := clients[..i], [clients[i]], clients[i + 1..];
    assert clients == (left + mid) + right;
    HandledAddressesAppend(left + mid, right);
    HandledAddressesAppend(left, mid);
    assert mid[..0] == [];
    assert HandledAddresses(mid) == HandledAddresses([]) + clients[i].emailAddresses;
  }

  /** getHandledEmailAddresses */
  method GetHandledEmailAddresses(clients: seq<Client>) returns (handled: seq<string>)
    ensures handled == HandledAddresses(clients)
  {
    handled := [];
    var i := 0;
    while i < |clients|
      invariant 0 <= i <= |clients|
      invariant handled == HandledAddresses(clients[..i])
    {
      var fragments := clients[i].emailAddresses;
      var j := 0;
      while j < |fragments|
        invariant 0 <= j <= |fragments|
        invariant handled == HandledAddresses(clients[..i]) + fragments[..j]
      {
        handled := handled + [fragments[j]];
        j := j + 1;
      }
      assert clients[..i + 1][..i] == clients[..i];
      assert fragments[..j] == fragments;
      i := i + 1;
    }
    assert clients[..i] == clients;
  }

  /** Some fragment of the list occurs (case-sensitively) inside `address`. */
  predicate HasFragmentIn(fragments: seq<string>, address: string) {
    exists j :: 0 <= j < |fragments| && Includes(address, fragments[j])
  }

  /** The client an address belongs to: the first client, in table order, one of whose
      fragments is a substring of the address. */
  function Classify(clients: seq<Client>, address: string): Option<string> {
    if |clients| == 0 then None
    else if HasFragmentIn(clients[0].emailAddresses, address) then Some(clients[0].name)
    else Classify(clients[1..], address)
  }

  /** An address is unclassified exactly when no client has a fragment in it; otherwise it goes
      to a client that has one. */
  lemma {:induction false} ClassifyMeans(clients: seq<Client>, address: string)
    ensures Classify(clients, address).None?
            <==> forall i :: 0 <= i < |clients| ==> !HasFragmentIn(clients[i].emailAddresses, address)
    ensures Classify(clients, address).Some? ==>
              exists i :: 0 <= i < |clients| && clients[i].name == Classify(clients, address).value
                          && HasFragmentIn(clients[i].emailAddresses, address)
  {
    ClassifyIsFirstMatch(clients, address);
  }

  /** Index of the first client with a fragment occurring in `address`, or `|clients|`. */
  function FirstMatchingClient(clients: seq<Client>, address: string): (i: nat)
    ensures i <= |clients|
    ensures forall k :: 0 <= k < i ==> !HasFragmentIn(clients[k].emailAddresses, address)
    ensures i < |clients| ==> HasFragmentIn(clients[i].emailAddresses, address)
  {
    FindIndex(clients, (c: Client) => HasFragmentIn(c.emailAddresses, address))
  }

  /** Classification is first-match: the name of the first client with a fragment that is a
      substring of the address, and no client when none has one. */
  lemma {:induction false} ClassifyIsFirstMatch(clients: seq<Client>, address: string)
    ensures var i := FirstMatchingClient(clients, address);
            Classify(clients, address) == if i < |clients| then Some(clients[i].name) else None
    decreases |clients|
  {
    if |clients| > 0 && !HasFragmentIn(clients[0].emailAddresses, address) {
      ClassifyIsFirstMatch(clients[1..], address);
      var i := FirstMatchingClient(clients[1..], address);
      assert FirstMatchingClient(clients, address) == i + 1 by {
        var p := (c: Client) => HasFragmentIn(c.emailAddresses, address);
        assert FindIndex(clients, p) == 1 + FindIndex(clients[1..], p);
      }
    }
  }

  /** isHandledEmailAddress */
  method IsHandledEmailAddress(clients: seq<Client>, address: string) returns (client: Option<string>)
    ensures client == Classify(clients, address)
  {
    var i := 0;
    while i < |clients|
      invariant 0 <= i <= |clients|
      invariant Classify(clients[i..], address) == Classify(clients, address)
    {
      var fragments := clients[i].emailAddresses;
      var j := 0;
      while j < |fragments|
        invariant 0 <= j <= |fragments|
        invariant forall k :: 0 <= k < j ==> !Includes(address, fragments[k])
      {
        if Includes(address, fragments[j]) {
          return Some(clients[i].name);
        }
        j := j + 1;
      }
      assert clients[i..][1..] == clients[i + 1..];
      i := i + 1;
    }
    return None;
  }

  /** The bucket a message goes to: classification of its From header, where a client with an
      empty (falsy) name drops the message just as no client does. */
  function Route(clients: seq<Client>, e: Email): (r: Option<string>)
    ensures r.Some? ==> r.value != "" && Classify(clients, e.from) == r
    ensures r.None? ==> Classify(clients, e.from) in {None, Some("")}
  {
    match Classify(clients, e.from)
    case None => None
    case Some(name) => if name == "" then None else Some(name)
  }

  // ---------------------------------------------------------------------------------------
  // The search query

  const QueryHead := "label:inbox "
  const QueryTail := " NOT label:importedInNotion"

  /** The `{from:a1 from:a2 ...}` term, dropped when the joined fragments are empty. */
  function FromClause(addresses: seq<string>): string {
    var joined := Join(addresses, " from:");
    if joined != "" then "{from:" + joined + "}" else ""
  }

  /** buildGmailQuery */
  function BuildGmailQuery(clients: seq<Client>): (q: string)
    ensures QueryHead <= q
  {
    QueryHead + FromClause(HandledAddresses(clients)) + QueryTail
  }

  /** The from-term is `{from:a1 from:a2 ...}`, or nothing when there is no address or only
      one empty fragment. */
  lemma {:induction false} FromClauseShape(a: seq<string>)
    ensures a == [] || a == [""] ==> FromClause(a) == ""
    ensures a != [] && a != [""] ==> FromClause(a) == "{" + Join(Prefixed("from:", a), " ") + "}"
  {
    var joined := Join(a, " from:");
    JoinEmpty(a, " from:");
    if a != [] && a != [""] {
      assert " " + "from:" == " from:";
      JoinPrefixed("from:", " ", a);
      assert "{from:" + joined == "{" + ("from:" + joined);
    }
  }

  /** Without any address, or with one empty fragment, the query has no from-term: the two
      label terms are left with a double space between them. */
  lemma {:induction false} GmailQueryWithoutAddresses(clients: seq<Client>)
    requires HandledAddresses(clients) == [] || HandledAddresses(clients) == [""]
    ensures BuildGmailQuery(clients) == QueryHead + QueryTail
  {
    FromClauseShape(HandledAddresses(clients));
    assert QueryHead + "" + QueryTail == QueryHead + QueryTail;
  }

  /** The query puts the from-term between the inbox and the not-imported label terms. */
  lemma {:induction false} GmailQueryShape(clients: seq<Client>)
    requires HandledAddresses(clients) != [] && HandledAddresses(clients) != [""]
    ensures BuildGmailQuery(clients) ==
            QueryHead + "{" + Join(Prefixed("from:", HandledAddresses(clients)), " ") + "}" + QueryTail
  {
    FromClauseShape(HandledAddresses(clients));
  }

  // ---------------------------------------------------------------------------------------
  // Normalising one fetched message

  /** `headers.find(h => h.name === name)?.value`: the first header with exactly that name. */
  function FindHeader(headers: seq<Header>, name: string): (r: Option<string>)
    ensures r.None? <==> forall i :: 0 <= i < |headers| ==> headers[i].name != name
    ensures r.Some? ==> exists i :: 0 <= i < |headers| && headers[i] == Header(name, r.value)
                                    && forall k :: 0 <= k < i ==> headers[k].name != name
  {
    var i := FindIndex(headers, (h: Header) => h.name == name);
    if i < |headers| then
      assert headers[i] == Header(name, headers[i].value);
      Some(headers[i].value)
    else None
  }

  predicate IsHtmlPart(p: Part) {
    p.mimeType == "text/html"
  }

  /** `part.body && part.body.data`: the body data when it is present and non-empty. */
  function TruthyData(b: Option<PartBody>): (r: Option<string>)
    ensures r.None? <==> b.None? || b.value.data.None? || b.value.data.value == ""
    ensures r.Some? ==> b == Some(PartBody(r))
  {
    if b.Some? && b.value.data.Some? && b.value.data.value != "" then b.value.data else None
  }

  /** The decoded HTML body (google.js:180-195): with a non-empty `parts`, the data of the first
      direct `text/html` part, else ""; otherwise the top-level body. None stands for the error
      thrown when a top-level body object carries no data. */
  function SelectBody(payload: Payload, decode: string -> string): (r: Option<string>)
    ensures r.None? <==> (payload.parts.None? || payload.parts.value == [])
                         && payload.body.Some? && payload.body.value.data.None?
    ensures payload.parts.Some? && payload.parts.value != []
            && (forall k :: 0 <= k < |payload.parts.value| ==> !IsHtmlPart(payload.parts.value[k]))
            ==> r == Some("")
    ensures (payload.parts.None? || payload.parts.value == []) && payload.body.None? ==> r == Some("")
    ensures (payload.parts.None? || payload.parts.value == []) && payload.body.Some? && payload.body.value.data.Some?
            ==> r == Some(decode(payload.body.value.data.value))
  {
    if payload.parts.Some? && |payload.parts.value| > 0 then
      var parts := payload.parts.value;
      var i := FindIndex(parts, IsHtmlPart);
      if i < |parts| && TruthyData(parts[i].body).Some? then Some(decode(TruthyData(parts[i].body).value))
      else Some("")
    else if payload.body.Some? then
      if payload.body.value.data.Some? then Some(decode(payload.body.value.data.value)) else None
    else Some("")
  }

  /** Two part lists that agree on every direct part's MIME type and body. */
  ghost predicate SameDirectParts(ps: seq<Part>, qs: seq<Part>) {
    |ps| == |qs| && forall i :: 0 <= i < |ps| ==> ps[i].mimeType == qs[i].mimeType && ps[i].body == qs[i].body
  }

  lemma {:induction false} FindHtmlSameDirect(ps: seq<Part>, qs: seq<Part>)
    requires SameDirectParts(ps, qs)
    ensures FindIndex(ps, IsHtmlPart) == FindIndex(qs, IsHtmlPart)
    decreases |ps|
  {
    if |ps| > 0 && !IsHtmlPart(ps[0]) {
      FindHtmlSameDirect(ps[1..], qs[1..]);
    }
  }

  /** Only direct parts are inspected: replacing the nested children, file names or anything else
      of the parts, keeping each direct part's MIME type and body, leaves the body unchanged. */
  lemma {:induction false} NestedPartsNotInspected(payload: Payload, ps: seq<Part>, qs: seq<Part>, decode: string -> string)
    requires SameDirectParts(ps, qs)
    ensures SelectBody(payload.(parts := Some(ps)), decode) == SelectBody(payload.(parts := Some(qs)), decode)
  {
    FindHtmlSameDirect(ps, qs);
  }

  /** A message whose only part is `multipart/alternative` holding a `text/html` part gets an
      empty body: the nested HTML is never reached. */
  lemma {:induction false} NestedHtmlGivesEmptyBody(headers: seq<Header>, top: Option<PartBody>, html: string, decode: string -> string)
    ensures var inner := Part("text/html", "", Some(PartBody(Some(html))), []);
            var outer := Part("multipart/alternative", "", Some(PartBody(None)), [inner]);
            SelectBody(Payload(headers, top, Some([outer])), decode) == Some("")
  {
    var inner := Part("text/html", "", Some(PartBody(Some(html))), []);
    var outer := Part("multipart/alternative", "", Some(PartBody(None)), [inner]);
    assert FindIndex([outer], IsHtmlPart) == 1 + FindIndex([outer][1..], IsHtmlPart);
  }

  /** The first direct `text/html` part decides the body even when a later one has data. */
  lemma {:induction false} FirstDirectHtmlDecides(payload: Payload, decode: string -> string, i: nat)
    requires payload.parts.Some? && i < |payload.parts.value|
    requires IsHtmlPart(payload.parts.value[i])
    requires forall k :: 0 <= k < i ==> !IsHtmlPart(payload.parts.value[k])
    ensures TruthyData(payload.parts.value[i].body).Some? ==>
              SelectBody(payload, decode) == Some(decode(TruthyData(payload.parts.value[i].body).value))
    ensures TruthyData(payload.parts.value[i].body).None? ==> SelectBody(payload, decode) == Some("")
  {
    FindIndexFirst(payload.parts.value, IsHtmlPart, i);
  }

  predicate IsAttachment(p: Part) {
    p.filename != ""
  }

  /** `parts.filter(part => part.filename)`: the parts with a non-empty file name. */
  function Attachments(parts: seq<Part>): (r: seq<Part>)
    ensures forall i :: 0 <= i < |r| ==> r[i].filename != "" && r[i] in parts
    ensures forall i :: 0 <= i < |parts| && parts[i].filename != "" ==> parts[i] in r
  {
    Filter(parts, IsAttachment)
  }

  /** Attachments keep the order of the parts they come from. */
  lemma {:induction false} AttachmentsInPartOrder(a: seq<Part>, b: seq<Part>)
    ensures Attachments(a + b) == Attachments(a) + Attachments(b)
  {
    FilterAppend(a, b, IsAttachment);
  }

  /** One message of the loop of getFormatedMails, or None when normalising it throws: a missing
      Subject, From or To header, a missing `parts` array, or an undecodable top-level body. */
  function Normalize(id: string, raw: RawMessage, decode: string -> string, toMarkdown: string -> string)
    : (r: Option<Email>)
    ensures var h := raw.payload.headers;
            r.Some? <==> && FindHeader(h, "Subject").Some? && FindHeader(h, "From").Some?
                         && FindHeader(h, "To").Some? && raw.payload.parts.Some?
                         && SelectBody(raw.payload, decode).Some?
    ensures r.Some? ==> && r.value.id == id && r.value.date == raw.internalDate
                        && Some(r.value.subject) == FindHeader(raw.payload.headers, "Subject")
                        && Some(r.value.from) == FindHeader(raw.payload.headers, "From")
                        && Some(r.value.to) == FindHeader(raw.payload.headers, "To")
                        && r.value.files == Attachments(raw.payload.parts.value)
                        && r.value.body == toMarkdown(SelectBody(raw.payload, decode).value)
  {
    var h := raw.payload.headers;
    var subject, from, to := FindHeader(h, "Subject"), FindHeader(h, "From"), FindHeader(h, "To");
    var body := SelectBody(raw.payload, decode);
    if subject.None? || from.None? || to.None? || body.None? || raw.payload.parts.None? then None
    else Some(Email(id, subject.value, raw.internalDate, from.value, to.value,
                    toMarkdown(body.value), Attachments(raw.payload.parts.value)))
  }

  /** `messages.get` followed by normalisation; None when either throws. */
  function FetchOne(id: string, getMessage: string -> Reply<RawMessage>,
                    decode: string -> string, toMarkdown: string -> string): (r: Option<Email>)
    ensures r.Some? ==> r.value.id == id
    ensures getMessage(id).Fault? ==> r.None?
    ensures getMessage(id).Ok? ==> r == Normalize(id, getMessage(id).value, decode, toMarkdown)
  {
    match getMessage(id)
    case Fault => None
    case Ok(raw) => Normalize(id, raw, decode, toMarkdown)
  }

  /** All listed messages, fetched and normalised in order; None as soon as one fetch or one
      normalisation throws. */
  function NormalizeAll(ids: seq<string>, getMessage: string -> Reply<RawMessage>,
                        decode: string -> string, toMarkdown: string -> string): (r: Option<seq<Email>>)
    ensures r.Some? ==> |r.value| == |ids| && forall i :: 0 <= i < |ids| ==> r.value[i].id == ids[i]
  {
    if |ids| == 0 then Some([])
    else
      var n := |ids| - 1;
      match NormalizeAll(ids[..n], getMessage, decode, toMarkdown)
      case None => None
      case Some(es) =>
        match FetchOne(ids[n], getMessage, decode, toMarkdown)
        case None => None
        case Some(e) =>
          IdsKept(ids, es, e);
          Some(es + [e])
  }

  lemma {:induction false} IdsKept(ids: seq<string>, es: seq<Email>, e: Email)
    requires |ids| > 0 && |es| == |ids| - 1 && e.id == ids[|ids| - 1]
    requires forall i :: 0 <= i < |es| ==> es[i].id == ids[..|ids| - 1][i]
    ensures forall i :: 0 <= i < |ids| ==> (es + [e])[i].id == ids[i]
  {
    forall i | 0 <= i < |ids|
      ensures (es + [e])[i].id == ids[i]
    {
      if i < |es| {
        assert ids[..|ids| - 1][i] == ids[i];
      }
    }
  }

  /** The fetch succeeds exactly when every listed message fetches and normalises. */
  lemma {:induction false} NormalizeAllSucceedsIffEach(ids: seq<string>, getMessage: string -> Reply<RawMessage>,
                                                       decode: string -> string, toMarkdown: string -> string)
    ensures NormalizeAll(ids, getMessage, decode, toMarkdown).Some?
            <==> forall i :: 0 <= i < |ids| ==> FetchOne(ids[i], getMessage, decode, toMarkdown).Some?
  {
    if NormalizeAll(ids, getMessage, decode, toMarkdown).Some? {
      NormalizeAllIsEachFetch(ids, getMessage, decode, toMarkdown);
    } else if forall i :: 0 <= i < |ids| ==> FetchOne(ids[i], getMessage, decode, toMarkdown).Some? {
      EachFetchNormalizes(ids, getMessage, decode, toMarkdown);
    }
  }

  lemma {:induction false} EachFetchNormalizes(ids: seq<string>, getMessage: string -> Reply<RawMessage>,
                                               decode: string -> string, toMarkdown: string -> string)
    requires forall i :: 0 <= i < |ids| ==> FetchOne(ids[i], getMessage, decode, toMarkdown).Some?
    ensures NormalizeAll(ids, getMessage, decode, toMarkdown).Some?
    decreases |ids|
  {
    if |ids| > 0 {
      var n := |ids| - 1;
      EachFetchPrefix(ids, n, getMessage, decode, toMarkdown);
      EachFetchNormalizes(ids[..n], getMessage, decode, toMarkdown);
      var es := NormalizeAll(ids[..n], getMessage, decode, toMarkdown).value;
      var e := FetchOne(ids[n], getMessage, decode, toMarkdown).value;
      NormalizeAllStep(ids, n, es, e, getMessage, decode, toMarkdown);
      assert ids[..n + 1] == ids;
    }
  }

  lemma {:induction false} EachFetchPrefix(ids: seq<string>, n: nat, getMessage: string -> Reply<RawMessage>,
                                           decode: string -> string, toMarkdown: string -> string)
    requires n <= |ids|
    requires forall i :: 0 <= i < |ids| ==> FetchOne(ids[i], getMessage, decode, toMarkdown).Some?
    ensures forall i :: 0 <= i < n ==> FetchOne(ids[..n][i], getMessage, decode, toMarkdown).Some?
  {
    forall i | 0 <= i < n
      ensures FetchOne(ids[..n][i], getMessage, decode, toMarkdown).Some?
    {
      assert ids[..n][i] == ids[i];
    }
  }

  /** When the fetch succeeds, record i is the normalisation of message i. */
  lemma {:induction false} NormalizeAllIsEachFetch(ids: seq<string>, getMessage: string -> Reply<RawMessage>,
                                                   decode: string -> string, toMarkdown: string -> string)
    requires NormalizeAll(ids, getMessage, decode, toMarkdown).Some?
    ensures forall i :: 0 <= i < |ids| ==>
              FetchOne(ids[i], getMessage, decode, toMarkdown).Some?
              && NormalizeAll(ids, getMessage, decode, toMarkdown).value[i] == FetchOne(ids[i], getMessage, decode, toMarkdown).value
    decreases |ids|
  {
    if |ids| > 0 {
      var n := |ids| - 1;
      var r0 := NormalizeAll(ids[..n], getMessage, decode, toMarkdown);
      var last := FetchOne(ids[n], getMessage, decode, toMarkdown);
      assert r0.Some? && last.Some?;
      NormalizeAllIsEachFetch(ids[..n], getMessage, decode, toMarkdown);
      assert NormalizeAll(ids, getMessage, decode, toMarkdown).value == r0.value + [last.value];
      EachFetchAppend(ids, r0.value, last.value, getMessage, decode, toMarkdown);
    }
  }

  lemma {:induction false} EachFetchAppend(ids: seq<string>, es: seq<Email>, e: Email, getMessage: string -> Reply<RawMessage>,
                                           decode: string -> string, toMarkdown: string -> string)
    requires |ids| > 0 && |es| == |ids| - 1
    requires forall i :: 0 <= i < |es| ==>
               FetchOne(ids[..|es|][i], getMessage, decode, toMarkdown).Some?
               && es[i] == FetchOne(ids[..|es|][i], getMessage, decode, toMarkdown).value
    requires FetchOne(ids[|es|], getMessage, decode, toMarkdown) == Some(e)
    ensures forall i :: 0 <= i < |ids| ==>
              FetchOne(ids[i], getMessage, decode, toMarkdown).Some?
              && (es + [e])[i] == FetchOne(ids[i], getMessage, decode, toMarkdown).value
  {
    forall i | 0 <= i < |ids|
      ensures FetchOne(ids[i], getMessage, decode, toMarkdown).Some?
      ensures (es + [e])[i] == FetchOne(ids[i], getMessage, decode, toMarkdown).value
    {
      if i < |es| {
        assert ids[..|es|][i] == ids[i];
      }
    }
  }

  lemma {:induction false} NormalizeAllFailureSticks(ids: seq<string>, i: nat, getMessage: string -> Reply<RawMessage>,
                                                     decode: string -> string, toMarkdown: string -> string)
    requires i <= |ids| && NormalizeAll(ids[..i], getMessage, decode, toMarkdown).None?
    ensures NormalizeAll(ids, getMessage, decode, toMarkdown).None?
    decreases |ids| - i
  {
    if i < |ids| {
      assert ids[..i + 1][..i] == ids[..i];
      NormalizeAllFailureSticks(ids, i + 1, getMessage, decode, toMarkdown);
    } else {
      assert ids[..i] == ids;
    }
  }

  // ---------------------------------------------------------------------------------------
  // Grouping by client

  /** The messages routed to a client, in fetch order. */
  function RoutedTo(clients: seq<Client>, es: seq<Email>, name: string): seq<Email> {
    Filter(es, (e: Email) => Route(clients, e) == Some(name))
  }

  /** The client names of the routed messages, in fetch order, with repetitions. */
  function RouteNames(clients: seq<Client>, es: seq<Email>): seq<string> {
    if |es| == 0 then []
    else
      var n := |es| - 1;
      RouteNames(clients, es[..n]) + (match Route(clients, es[n]) case Some(name) => [name] case None => [])
  }

  /** The map the loop of getFormatedMails builds from the normalised messages. */
  function GroupEmails(clients: seq<Client>, es: seq<Email>): (m: Buckets)
    ensures m.Valid()
  {
    if |es| == 0 then Empty()
    else
      var n := |es| - 1;
      var m0 := GroupEmails(clients, es[..n]);
      match Route(clients, es[n])
      case None => m0
      case Some(name) =>
        var current := if name in m0.entries then m0.entries[name] else [];
        m0.Set(name, current + [es[n]])
  }

  /** Each client's bucket holds exactly the messages routed to it, in fetch order; a client
      without routed messages has no bucket. */
  lemma {:induction false} GroupedBuckets(clients: seq<Client>, es: seq<Email>, name: string)
    ensures GroupEmails(clients, es).Get(name)
         == if RoutedTo(clients, es, name) == [] then None else Some(RoutedTo(clients, es, name))
  {
    if |es| > 0 {
      var n := |es| - 1;
      GroupedBuckets(clients, es[..n], name);
      var m0 := GroupEmails(clients, es[..n]);
      var before := RoutedTo(clients, es[..n], name);
      var p := (e: Email) => Route(clients, e) == Some(name);
      assert RoutedTo(clients, es, name) == before + (if p(es[n]) then [es[n]] else []) by {
        assert es[..|es| - 1] == es[..n];
      }
      assert GroupEmails(clients, es[..n]) == m0;
      match Route(clients, es[n])
      case None =>
        assert !p(es[n]);
        assert RoutedTo(clients, es, name) == before;
        assert GroupEmails(clients, es) == m0;
      case Some(other) =>
        var current := if other in m0.entries then m0.entries[other] else [];
        assert GroupEmails(clients, es) == m0.Set(other, current + [es[n]]);
        if other == name {
          assert p(es[n]);
          assert m0.Get(name) == if before == [] then None else Some(before);
        } else {
          assert !p(es[n]);
        }
    }
  }

  /** Bucket keys appear in the order in which their client is first matched. */
  lemma {:induction false} GroupedKeysInFirstMatchOrder(clients: seq<Client>, es: seq<Email>)
    ensures GroupEmails(clients, es).keys == Dedup(RouteNames(clients, es))
  {
    if |es| > 0 {
      var n := |es| - 1;
      GroupedKeysInFirstMatchOrder(clients, es[..n]);
      var m0 := GroupEmails(clients, es[..n]);
      var names := RouteNames(clients, es[..n]);
      match Route(clients, es[n])
      case None =>
        assert RouteNames(clients, es) == names;
      case Some(name) =>
        assert RouteNames(clients, es) == names + [name];
        assert (names + [name])[..|names|] == names;
        assert name in m0.entries <==> name in Dedup(names);
    }
  }

  lemma {:induction false} GroupEmailsStep(clients: seq<Client>, es: seq<Email>, e: Email)
    ensures var m0 := GroupEmails(clients, es);
            GroupEmails(clients, es + [e]) == match Route(clients, e)
                                              case None => m0
                                              case Some(name) =>
                                                m0.Set(name, (if name in m0.entries then m0.entries[name] else []) + [e])
  {
    assert (es + [e])[..|es|] == es;
  }

  lemma {:induction false} NormalizeAllStep(ids: seq<string>, i: nat, es: seq<Email>, e: Email, getMessage: string -> Reply<RawMessage>,
                         decode: string -> string, toMarkdown: string -> string)
    requires i < |ids|
    requires NormalizeAll(ids[..i], getMessage, decode, toMarkdown) == Some(es)
    requires FetchOne(ids[i], getMessage, decode, toMarkdown) == Some(e)
    ensures NormalizeAll(ids[..i + 1], getMessage, decode, toMarkdown) == Some(es + [e])
  {
    assert ids[..i + 1][..i] == ids[..i];
  }

  /** The loop of getFormatedMails: fetch, normalise and classify each listed message and append
      it to its client's bucket. None when a fetch or a normalisation throws. */
  method CollectMails(clients: seq<Client>, ids: Option<seq<string>>, getMessage: string -> Reply<RawMessage>,
                      decode: string -> string, toMarkdown: string -> string) returns (r: Option<Buckets>)
    ensures ids.None? ==> r == Some(Empty())
    ensures ids.Some? ==> r == match NormalizeAll(ids.value, getMessage, decode, toMarkdown)
                               case None => None
                               case Some(es) => Some(GroupEmails(clients, es))
  {
    var emailData: Buckets := Empty();
    if ids.None? {
      return Some(emailData);
    }
    var messages := ids.value;
    ghost var es: seq<Email> := [];
    var i := 0;
    while i < |messages|
      invariant 0 <= i <= |messages|
      invariant NormalizeAll(messages[..i], getMessage, decode, toMarkdown) == Some(es)
      invariant emailData == GroupEmails(clients, es)
    {
      var msg := getMessage(messages[i]);
      if msg.Fault? {
        NormalizeAllFailureSticks(messages, i + 1, getMessage, decode, toMarkdown);
        return None;
      }
      var email := Normalize(messages[i], msg.value, decode, toMarkdown);
      if email.None? {
        NormalizeAllFailureSticks(messages, i + 1, getMessage, decode, toMarkdown);
        return None;
      }
      var client := IsHandledEmailAddress(clients, email.value.from);
      GroupEmailsStep(clients, es, email.value);
      if client.Some? && client.value != "" {
        var emailsForClient := emailData.Get(client.value);
        var list := if emailsForClient.Some? then emailsForClient.value else [];
        emailData := emailData.Set(client.value, list + [email.value]);
      }
      NormalizeAllStep(messages, i, es, email.value, getMessage, decode, toMarkdown);
      es := es + [email.value];
      i := i + 1;
    }
    assert messages[..i] == messages;
    return Some(emailData);
  }

  // ---------------------------------------------------------------------------------------
  // Label and token state

  /** `labels.find(l => l.name === "importedInNotion")?.id` */
  function FindLabelId(labels: seq<Label>): (r: Option<string>)
    ensures r.None? <==> forall i :: 0 <= i < |labels| ==> labels[i].name != ImportedLabelName
    ensures r.Some? ==> exists i :: 0 <= i < |labels| && labels[i] == Label(r.value, ImportedLabelName)
                                    && forall k :: 0 <= k < i ==> labels[k].name != ImportedLabelName
  {
    var i := FindIndex(labels, (l: Label) => l.name == ImportedLabelName);
    if i < |labels| then
      assert labels[i] == Label(labels[i].id, ImportedLabelName);
      Some(labels[i].id)
    else None
  }

  /** `!labelId`: no label id, or an empty one. */
  predicate Falsy(id: Option<string>) {
    id.None? || id.value == ""
  }

  /** The expiry test of refreshAuthToken: the stored expiry, compared as seconds against the
      current time truncated to whole seconds. A missing or non-numeric expiry never compares. */
  function NeedsRefresh(storedExpiry: Option<int>, nowMs: int): (b: bool)
    ensures b <==> storedExpiry.Some? && storedExpiry.value * 1000 <= nowMs
  {
    storedExpiry.Some? && storedExpiry.value <= FloorSeconds(nowMs)
  }

  /** `Math.floor(ms / 1000)` */
  function FloorSeconds(ms: int): (s: int)
    ensures s * 1000 <= ms < s * 1000 + 1000
  {
    ms / 1000
  }

  /** The page size getFormatedMails asks `users.messages.list` for. */
  const ListPageSize := 10

  /** The `users.messages.list` request: the search query and the page size. */
  datatype ListRequest = ListRequest(q: string, maxResults: nat)

  /** The replies of the remote calls getFormatedMails makes, in the order it makes them. */
  datatype GmailReplies = GmailReplies(
    refreshed: Reply<Tokens>,                   // oAuth2Client.refreshAccessToken, from getGmailClient
    labelRefreshed: Reply<Tokens>,              // the same, from the getGmailClient inside getLabelId
    labels: Reply<seq<Label>>,                  // users.labels.list
    createdLabel: Reply<string>,                // users.labels.create, the new label's id
    listed: Reply<Option<seq<string>>>,         // users.messages.list, the ids (absent when none)
    getMessage: string -> Reply<RawMessage>)    // users.messages.get

  /** The process-wide Gmail state: the OAuth client's credentials (none until getGmailClient
      installs them), the tokens last written to the `.env` file, and the module-level
      `labelId`. The expiry and tokens read from the environment at start-up never change
      during the run. */
  class GmailSession {
    const envTokens: Tokens
    const envExpiry: Option<int>
    var credentials: Option<Tokens>
    var savedTokens: Option<Tokens>
    var labelId: Option<string>

    /** The token, refresh token and expiry come from the environment; the same expiry is the
        credentials' `expiry_date` and the one refreshAuthToken tests. */
    constructor (accessToken: string, refreshToken: string, expiry: Option<int>)
      ensures envTokens == Tokens(accessToken, refreshToken, expiry) && envExpiry == expiry
      ensures credentials == None && savedTokens == None && labelId == None
    {
      envTokens := Tokens(accessToken, refreshToken, expiry);
      envExpiry := expiry;
      credentials := None;
      savedTokens := None;
      labelId := None;
    }

    /** Whether getGmailClient gets through: no refresh is due, or the refresh succeeds. */
    predicate ClientReady(nowMs: int, refreshed: Reply<Tokens>) {
      !NeedsRefresh(envExpiry, nowMs) || refreshed.Ok?
    }

    /** refreshAuthToken: refresh, persist and install new tokens when the stored expiry has passed. */
    method RefreshAuthToken(nowMs: int, refreshed: Reply<Tokens>) returns (ok: bool)
      modifies this
      ensures ok == ClientReady(nowMs, refreshed)
      ensures NeedsRefresh(envExpiry, nowMs) && refreshed.Ok? ==>
                credentials == Some(refreshed.value) && savedTokens == Some(refreshed.value)
      ensures !(NeedsRefresh(envExpiry, nowMs) && refreshed.Ok?) ==>
                credentials == old(credentials) && savedTokens == old(savedTokens)
      ensures labelId == old(labelId)
    {
      var time := FloorSeconds(nowMs);
      ok := true;
      if envExpiry.Some? && envExpiry.value <= time {
        match refreshed
        case Fault =>
          ok := false;
        case Ok(tokens) =>
          savedTokens := Some(tokens);
          credentials := Some(tokens);
      }
    }

    /** getGmailClient: install the environment's tokens, then refresh them if they expired. */
    method GetGmailClient(nowMs: int, refreshed: Reply<Tokens>) returns (ok: bool)
      modifies this
      ensures ok == ClientReady(nowMs, refreshed)
      ensures credentials == Some(if NeedsRefresh(envExpiry, nowMs) && refreshed.Ok? then refreshed.value else envTokens)
      ensures savedTokens == if NeedsRefresh(envExpiry, nowMs) && refreshed.Ok? then Some(refreshed.value)
                             else old(savedTokens)
      ensures labelId == old(labelId)
    {
      credentials := Some(envTokens);
      ok := RefreshAuthToken(nowMs, refreshed);
    }

    /** getLabelId: the id of the first label named `importedInNotion`, if any. */
    method GetLabelId(nowMs: int, refreshed: Reply<Tokens>, labels: Reply<seq<Label>>)
      returns (r: Reply<Option<string>>)
      modifies this
      ensures r == if ClientReady(nowMs, refreshed) && labels.Ok? then Ok(FindLabelId(labels.value)) else Fault
      ensures credentials == Some(if NeedsRefresh(envExpiry, nowMs) && refreshed.Ok? then refreshed.value else envTokens)
      ensures savedTokens == if NeedsRefresh(envExpiry, nowMs) && refreshed.Ok? then Some(refreshed.value)
                             else old(savedTokens)
      ensures labelId == old(labelId)
    {
      var ok := GetGmailClient(nowMs, refreshed);
      if !ok || labels.Fault? {
        return Fault;
      }
      return Ok(FindLabelId(labels.value));
    }

    /** getFormatedMails: resolve or create the label, list and fetch the candidate messages and
      group them by client. Any thrown error yields an empty map. */
    method GetFormatedMails(clients: seq<Client>, nowMs: int, labelNowMs: int, replies: GmailReplies,
                            decode: string -> string, toMarkdown: string -> string)
      returns (mails: Buckets, createRequested: bool, listRequest: Option<ListRequest>)
      modifies this
      ensures var found := if replies.labels.Ok? then FindLabelId(replies.labels.value) else None;
              var reached := ClientReady(nowMs, replies.refreshed) && ClientReady(labelNowMs, replies.labelRefreshed)
                             && replies.labels.Ok?;
              && (!reached ==> labelId == old(labelId) && !createRequested)
              && (reached ==> createRequested == Falsy(found))
              && (reached ==> labelId == if Falsy(found) && replies.createdLabel.Ok?
                                         then Some(replies.createdLabel.value) else found)
              && (reached && (!Falsy(found) || replies.createdLabel.Ok?) && replies.listed.Ok?
                  ==> mails == match replies.listed.value
                               case None => Empty()
                               case Some(ids) =>
                                 match NormalizeAll(ids, replies.getMessage, decode, toMarkdown)
                                 case None => Empty()
                                 case Some(es) => GroupEmails(clients, es))
              && (!(reached && (!Falsy(found) || replies.createdLabel.Ok?) && replies.listed.Ok?)
                  ==> mails == Empty())
      ensures var found := if replies.labels.Ok? then FindLabelId(replies.labels.value) else None;
              var reached := ClientReady(nowMs, replies.refreshed) && ClientReady(labelNowMs, replies.labelRefreshed)
                             && replies.labels.Ok?;
              listRequest == if reached && (!Falsy(found) || replies.createdLabel.Ok?)
                             then Some(ListRequest(BuildGmailQuery(clients), ListPageSize)) else None
      ensures var first := NeedsRefresh(envExpiry, nowMs) && replies.refreshed.Ok?;
              var second := ClientReady(nowMs, replies.refreshed)
                            && NeedsRefresh(envExpiry, labelNowMs) && replies.labelRefreshed.Ok?;
              && credentials == Some(if second then replies.labelRefreshed.value else envTokens)
              && savedTokens == if second then Some(replies.labelRefreshed.value)
                                else if first then Some(replies.refreshed.value) else old(savedTokens)
    {
      mails := Empty();
      createRequested := false;
      listRequest := None;
      var ok := GetGmailClient(nowMs, replies.refreshed);
      if !ok {
        return;
      }
      var found := GetLabelId(labelNowMs, replies.labelRefreshed, replies.labels);
      if found.Fault? {
        return;
      }
      labelId := found.value;
      if Falsy(labelId) {
        createRequested := true;
        if replies.createdLabel.Fault? {
          return;
        }
        labelId := Some(replies.createdLabel.value);
      }
      listRequest := Some(ListRequest(BuildGmailQuery(clients), ListPageSize));
      if replies.listed.Fault? {
        return;
      }
      var collected := CollectMails(clients, replies.listed.value, replies.getMessage, decode, toMarkdown);
      if collected.Some? {
        mails := collected.value;
      }
    }
  }
}
