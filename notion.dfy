/** The Notion side of the import (services/notion.js): client pages under the main page,
    chunking of message bodies, the toggle block rendered for one message, and the two appends
    of addClientMails. Remote calls are inputs; the date formatting and the attachment upload
    are function parameters. */
module Notion {
  import opened Wrappers
  import opened Seqs
  import opened Mail
  import opened EmailScan

  /** Most characters in one text run. */
  const ChunkSize := 2000
  /** Most text runs in one quote block. */
  const MaxChunks := 100
  /** Messages newer than this many milliseconds before now go to the top of the page. */
  const RecentWindowMs := 15 * 60 * 1000

  function Min(a: int, b: int): int {
    if a <= b then a else b
  }

  // ---------------------------------------------------------------------------------------
  // Client pages

  datatype ChildPage = ChildPage(title: string)

  /** A block listed under the main page; `childPage` is present for sub-pages. */
  datatype PageBlock = PageBlock(id: string, childPage: Option<ChildPage>)

  datatype ClientPage = ClientPage(id: string, name: string)

  /** `block.child_page?.title` is truthy. */
  predicate IsTitledPage(b: PageBlock) {
    b.childPage.Some? && b.childPage.value.title != ""
  }

  /** The filter and map of getExistingClients. */
  function ExistingClients(blocks: seq<PageBlock>): (r: seq<ClientPage>)
    ensures |r| <= |blocks|
    ensures forall i :: 0 <= i < |r| ==> r[i].name != "" && PageBlock(r[i].id, Some(ChildPage(r[i].name))) in blocks
    ensures forall i :: 0 <= i < |blocks| && IsTitledPage(blocks[i]) ==>
              ClientPage(blocks[i].id, blocks[i].childPage.value.title) in r
  {
    if |blocks| == 0 then []
    else
      var n := |blocks| - 1;
      var b := blocks[n];
      assert blocks == blocks[..n] + [b];
      ExistingClients(blocks[..n]) + (if IsTitledPage(b) then [ClientPage(b.id, b.childPage.value.title)] else [])
  }

  /** Titled pages keep the order in which the listing gives them. */
  lemma {:induction false} ExistingClientsInOrder(a: seq<PageBlock>, b: seq<PageBlock>)
    ensures ExistingClients(a + b) == ExistingClients(a) + ExistingClients(b)
    decreases |b|
  {
    if |b| == 0 {
      assert a + b == a;
    } else {
      assert (a + b)[..|a + b| - 1] == a + b[..|b| - 1];
      ExistingClientsInOrder(a, b[..|b| - 1]);
    }
  }

  /** getClientId: the first existing client whose name equals `name` exactly. */
  function GetClientId(existing: seq<ClientPage>, name: string): (r: Option<ClientPage>)
    ensures r.None? <==> forall i :: 0 <= i < |existing| ==> existing[i].name != name
    ensures r.Some? ==> exists i :: 0 <= i < |existing| && existing[i] == r.value && r.value.name == name
                                    && forall k :: 0 <= k < i ==> existing[k].name != name
  {
    var i := FindIndex(existing, (c: ClientPage) => c.name == name);
    if i < |existing| then Some(existing[i]) else None
  }

  // ---------------------------------------------------------------------------------------
  // Chunking

  /** The body cut into consecutive pieces of ChunkSize characters, the last one shorter. */
  function Split(body: string): seq<string>
    decreases |body|
  {
    if |body| == 0 then []
    else if |body| <= ChunkSize then [body]
    else [body[..ChunkSize]] + Split(body[ChunkSize..])
  }

  function Concat(xs: seq<string>): string {
    if |xs| == 0 then "" else xs[0] + Concat(xs[1..])
  }

  /** The chunks of addClientMails: the first MaxChunks pieces of the body. */
  function ChunksOf(body: string): seq<string> {
    Split(body[..Min(|body|, ChunkSize * MaxChunks)])
  }

  /** Splitting loses nothing, makes ceil(|body| / ChunkSize) pieces, none empty, all full but the last. */
  lemma {:induction false} SplitProperties(body: string)
    ensures Concat(Split(body)) == body
    ensures |Split(body)| == (|body| + ChunkSize - 1) / ChunkSize
    ensures forall i :: 0 <= i < |Split(body)| ==> 0 < |Split(body)[i]| <= ChunkSize
    ensures forall i :: 0 <= i < |Split(body)| - 1 ==> |Split(body)[i]| == ChunkSize
    decreases |body|
  {
    if |body| > ChunkSize {
      var rest := body[ChunkSize..];
      SplitProperties(rest);
      assert Split(body) == [body[..ChunkSize]] + Split(rest);
      assert Split(body)[1..] == Split(rest);
      assert body == body[..ChunkSize] + rest;
    }
  }

  /** Chunks are at most ChunkSize long, all full but the last, at most MaxChunks of them, and
      together they are the body cut at ChunkSize * MaxChunks characters. */
  lemma {:induction false} ChunkBounds(body: string)
    ensures |ChunksOf(body)| == Min((|body| + ChunkSize - 1) / ChunkSize, MaxChunks)
    ensures Concat(ChunksOf(body)) == body[..Min(|body|, ChunkSize * MaxChunks)]
    ensures forall i :: 0 <= i < |ChunksOf(body)| ==> 0 < |ChunksOf(body)[i]| <= ChunkSize
    ensures forall i :: 0 <= i < |ChunksOf(body)| - 1 ==> |ChunksOf(body)[i]| == ChunkSize
  {
    SplitProperties(body[..Min(|body|, ChunkSize * MaxChunks)]);
  }

  /** An empty body has no chunk; 2000 characters make one chunk and 4001 make three. */
  lemma {:induction false} ChunkCounts(body: string)
    ensures |body| == 0 ==> ChunksOf(body) == []
    ensures |body| == 2000 ==> |ChunksOf(body)| == 1
    ensures |body| == 4001 ==> |ChunksOf(body)| == 3
  {
    ChunkBounds(body);
  }

  lemma {:induction false} SplitAppend(a: string, b: string)
    requires |a| % ChunkSize == 0
    ensures Split(a + b) == Split(a) + Split(b)
    decreases |a|
  {
    if |a| == 0 {
      assert a + b == b;
    } else if |b| == 0 {
      assert a + b == a;
    } else {
      var head, rest := a[..ChunkSize], a[ChunkSize..];
      assert a == head + rest;
      assert (a + b)[..ChunkSize] == head;
      assert (a + b)[ChunkSize..] == rest + b;
      assert Split(a + b) == [head] + Split(rest + b);
      SplitAppend(rest, b);
      SplitOfFullHead(a);
    }
  }

  lemma {:induction false} SplitOfFullHead(a: string)
    requires |a| >= ChunkSize
    ensures Split(a) == [a[..ChunkSize]] + Split(a[ChunkSize..])
  {
    if |a| == ChunkSize {
      assert a[..ChunkSize] == a;
      assert Split(a[ChunkSize..]) == [];
    }
  }

  /** The chunking loop of addClientMails (notion.js:158-161). */
  method ChunkBody(body: string) returns (chunks: seq<string>)
    ensures chunks == ChunksOf(body)
  {
    chunks := [];
    var i := 0;
    while i < |body| && |chunks| < MaxChunks
      invariant i == ChunkSize * |chunks| && |chunks| <= MaxChunks
      invariant chunks == Split(body[..Min(i, |body|)])
    {
      var piece := body[i..Min(i + ChunkSize, |body|)];
      assert body[..Min(i + ChunkSize, |body|)] == body[..i] + piece;
      SplitAppend(body[..i], piece);
      chunks := chunks + [piece];
      i := i + ChunkSize;
    }
  }

  // ---------------------------------------------------------------------------------------
  // Newline escaping

  /** `body.replaceAll("\n", "\\n")` */
  function EscapeNewlines(s: string): (r: string)
    ensures '\n' !in r
    ensures ('\n' !in s) ==> r == s
  {
    if |s| == 0 then ""
    else (if s[0] == '\n' then "\\n" else [s[0]]) + EscapeNewlines(s[1..])
  }

  /** Escaping works character by character: a newline becomes the two characters `\` and `n`,
      any other character stays. */
  lemma {:induction false} EscapeNewlinesChar(c: char)
    ensures EscapeNewlines([c]) == if c == '\n' then ['\\', 'n'] else [c]
  {
    assert [c][1..] == [];
  }

  /** Escaping distributes over concatenation, so with EscapeNewlinesChar it is determined
      character by character. */
  lemma {:induction false} EscapeNewlinesAppend(a: string, b: string)
    ensures EscapeNewlines(a + b) == EscapeNewlines(a) + EscapeNewlines(b)
    decreases |a|
  {
    if |a| > 0 {
      assert (a + b)[0] == a[0] && (a + b)[1..] == a[1..] + b;
      EscapeNewlinesAppend(a[1..], b);
    } else {
      assert a + b == b;
    }
  }

  // ---------------------------------------------------------------------------------------
  // Blocks

  /** A Notion rich-text run: its text, an optional link, and whether it is bold. */
  datatype RichText = RichText(content: string, link: Option<string>, bold: bool)

  datatype Block =
    | Toggle(richText: seq<RichText>, children: seq<Block>)
    | Quote(richText: seq<RichText>)
    | FileBlock(url: string, name: string)

  /** What an attachment upload gives back. */
  datatype FileRef = FileRef(url: string, name: string)

  /** One `blocks.children.append` request; `after` anchors the new blocks after a block. */
  datatype Append = Append(blockId: string, after: Option<string>, children: seq<Block>)

  /** One `mailto:` link run per address, its text the address and a space. */
  function AddressLinks(addresses: seq<string>): (r: seq<RichText>)
    ensures |r| == |addresses|
    ensures forall i :: 0 <= i < |r| ==> r[i] == RichText(addresses[i] + " ", Some("mailto:" + addresses[i]), false)
  {
    seq(|addresses|, i requires 0 <= i < |addresses| =>
      RichText(addresses[i] + " ", Some("mailto:" + addresses[i]), false))
  }

  /** The bold label line: subject, formatted date and the From label. */
  function HeaderText(e: Email, formatDate: int -> string): (r: RichText)
    ensures r.bold && r.link.None?
    ensures |r.content| >= 8 + |e.subject|
    ensures r.content[..8] == "Objet : " && r.content[8..8 + |e.subject|] == e.subject
    ensures r.content[8 + |e.subject|..] == "\n" + formatDate(e.date) + " - De : "
  {
    RichText("Objet : " + e.subject + "\n" + formatDate(e.date) + " - De : ", None, true)
  }

  /** The bold To label. */
  const ToLabel := RichText("\U{00C0} : ", None, true)

  /** The toggle's text: the label line, the From links, the To label and the To links. */
  function TextRuns(header: RichText, from: seq<string>, to: seq<string>): (r: seq<RichText>)
    ensures |r| == |from| + |to| + 2 && r[0] == header && r[|from| + 1] == ToLabel
  {
    [header] + AddressLinks(from) + [ToLabel] + AddressLinks(to)
  }

  /** The toggle block of one message. */
  function RenderEmail(e: Email, chunks: seq<string>, files: seq<FileRef>, formatDate: int -> string): (r: Block)
    ensures r.Toggle? && |r.children| == |files| + 1
    ensures r.children[0].Quote? && |r.children[0].richText| == |chunks|
    ensures forall i :: 0 <= i < |chunks| ==> r.children[0].richText[i] == RichText(chunks[i], None, false)
    ensures forall j :: 0 <= j < |files| ==> r.children[j + 1] == FileBlock(files[j].url, files[j].name)
  {
    Toggle(TextRuns(HeaderText(e, formatDate), CleanEmailAddresses(e.from), CleanEmailAddresses(e.to)),
           [Quote(seq(|chunks|, i requires 0 <= i < |chunks| => RichText(chunks[i], None, false)))]
             + seq(|files|, i requires 0 <= i < |files| => FileBlock(files[i].url, files[i].name)))
  }

  /** The uploads of one message's attachments, in attachment order. */
  function UploadedFiles(e: Email, upload: (string, Part) -> FileRef): (r: seq<FileRef>)
    ensures |r| == |e.files|
  {
    seq(|e.files|, i requires 0 <= i < |e.files| => upload(e.id, e.files[i]))
  }

  function RenderWithUploads(e: Email, upload: (string, Part) -> FileRef, formatDate: int -> string): Block {
    RenderEmail(e, ChunksOf(e.body), UploadedFiles(e, upload), formatDate)
  }

  lemma {:induction false} TextRunsShape(header: RichText, from: seq<string>, to: seq<string>)
    ensures var rt := TextRuns(header, from, to);
            && |rt| == |from| + |to| + 2
            && rt[0] == header && rt[|from| + 1] == ToLabel
            && (forall k :: 0 <= k < |from| ==> rt[k + 1] == RichText(from[k] + " ", Some("mailto:" + from[k]), false))
            && (forall k :: 0 <= k < |to| ==> rt[k + |from| + 2] == RichText(to[k] + " ", Some("mailto:" + to[k]), false))
  {
    var a, b := AddressLinks(from), AddressLinks(to);
    var rt := TextRuns(header, from, to);
    var front := [header] + a + [ToLabel];
    assert rt == front + b;
    assert |front| == |from| + 2;
    assert front[0] == header && front[|from| + 1] == ToLabel;
    forall k | 0 <= k < |from|
      ensures rt[k + 1] == RichText(from[k] + " ", Some("mailto:" + from[k]), false)
    {
      assert rt[k + 1] == front[k + 1] == a[k];
    }
    forall k | 0 <= k < |to|
      ensures rt[k + |from| + 2] == RichText(to[k] + " ", Some("mailto:" + to[k]), false)
    {
      assert rt[k + |from| + 2] == b[k];
    }
  }

  /** The rendered toggle's text: the label line, one link per distinct From address, the To
      label and one link per distinct To address. */
  lemma {:induction false} ToggleTextShape(e: Email, chunks: seq<string>, files: seq<FileRef>, formatDate: int -> string)
    ensures var t := RenderEmail(e, chunks, files, formatDate);
            var from, to := CleanEmailAddresses(e.from), CleanEmailAddresses(e.to);
            && t.Toggle?
            && |t.richText| == |from| + |to| + 2
            && t.richText[0] == RichText("Objet : " + e.subject + "\n" + formatDate(e.date) + " - De : ", None, true)
            && t.richText[|from| + 1] == ToLabel
            && (forall k :: 0 <= k < |from| ==>
                  t.richText[k + 1] == RichText(from[k] + " ", Some("mailto:" + from[k]), false))
            && (forall k :: 0 <= k < |to| ==>
                  t.richText[k + |from| + 2] == RichText(to[k] + " ", Some("mailto:" + to[k]), false))
  {
    TextRunsShape(HeaderText(e, formatDate), CleanEmailAddresses(e.from), CleanEmailAddresses(e.to));
  }

  /** The rendered toggle's children: a quote whose runs spell the body cut at
      ChunkSize * MaxChunks characters, then one file block per uploaded attachment, in order. */
  lemma {:induction false} ToggleChildrenShape(e: Email, upload: (string, Part) -> FileRef, formatDate: int -> string)
    ensures var t := RenderWithUploads(e, upload, formatDate);
            && t.Toggle?
            && |t.children| == |e.files| + 1 && t.children[0].Quote?
            && |t.children[0].richText| <= MaxChunks
            && Concat(seq(|t.children[0].richText|, i requires 0 <= i < |t.children[0].richText| =>
                          t.children[0].richText[i].content)) == e.body[..Min(|e.body|, ChunkSize * MaxChunks)]
            && (forall j :: 0 <= j < |e.files| ==>
                  t.children[j + 1] == FileBlock(upload(e.id, e.files[j]).url, upload(e.id, e.files[j]).name))
  {
    var chunks := ChunksOf(e.body);
    ChunkBounds(e.body);
    var files := UploadedFiles(e, upload);
    var quote := Quote(seq(|chunks|, i requires 0 <= i < |chunks| => RichText(chunks[i], None, false)));
    var fileBlocks := seq(|files|, i requires 0 <= i < |files| => FileBlock(files[i].url, files[i].name));
    var t := RenderWithUploads(e, upload, formatDate);
    assert t.children == [quote] + fileBlocks;
    var runs := quote.richText;
    assert seq(|runs|, i requires 0 <= i < |runs| => runs[i].content) == chunks;
  }

  // ---------------------------------------------------------------------------------------
  // The two appends

  /** `email.date > now - 15 minutes`: strictly newer than the cutoff. */
  predicate IsRecent(date: int, nowMs: int) {
    date > nowMs - RecentWindowMs
  }

  /** The toggles of the messages, in order. */
  function Rendered(es: seq<Email>, upload: (string, Part) -> FileRef, formatDate: int -> string): (r: seq<Block>)
    ensures |r| == |es|
  {
    seq(|es|, i requires 0 <= i < |es| => RenderWithUploads(es[i], upload, formatDate))
  }

  /** Whether the i-th message is recent, against the clock reading taken for it. */
  function RecentFlags(es: seq<Email>, clock: nat -> int): (r: seq<bool>)
    ensures |r| == |es|
  {
    seq(|es|, i requires 0 <= i < |es| => IsRecent(es[i].date, clock(i)))
  }

  /** The `before` and `after` children built by the loop of addClientMails. */
  function Placement(es: seq<Email>, clock: nat -> int, upload: (string, Part) -> FileRef,
                     formatDate: int -> string): (r: (seq<Block>, seq<Block>))
    ensures |r.0| == CountTrue(RecentFlags(es, clock)) && |r.0| + |r.1| == |es|
  {
    PartitionBeforeSize(Rendered(es, upload, formatDate), RecentFlags(es, clock));
    Partition(Rendered(es, upload, formatDate), RecentFlags(es, clock))
  }

  /** Each message's toggle lands in exactly one bucket: `before` when its date is strictly after
      now minus 15 minutes, `after` otherwise (the cutoff itself included), in message order
      within each bucket; no toggle is lost or added. */
  lemma {:induction false} PlacementOfMessage(es: seq<Email>, clock: nat -> int, upload: (string, Part) -> FileRef,
                           formatDate: int -> string, i: nat)
    requires i < |es|
    ensures var p := Placement(es, clock, upload, formatDate);
            var flags := RecentFlags(es, clock);
            var t := RenderWithUploads(es[i], upload, formatDate);
            && |p.0| + |p.1| == |es|
            && |p.0| == CountTrue(flags)
            && (es[i].date > clock(i) - RecentWindowMs ==>
                  CountTrue(flags[..i]) < |p.0| && p.0[CountTrue(flags[..i])] == t)
            && (es[i].date <= clock(i) - RecentWindowMs ==>
                  i - CountTrue(flags[..i]) < |p.1| && p.1[i - CountTrue(flags[..i])] == t)
  {
    PartitionPlacement(Rendered(es, upload, formatDate), RecentFlags(es, clock), i);
    PartitionBeforeSize(Rendered(es, upload, formatDate), RecentFlags(es, clock));
  }

  /** The (`messageId`, attachment) pairs passed to the upload, message by message. */
  function UploadCalls(es: seq<Email>): seq<(string, Part)> {
    if |es| == 0 then []
    else
      var n := |es| - 1;
      UploadCalls(es[..n]) + seq(|es[n].files|, j requires 0 <= j < |es[n].files| => (es[n].id, es[n].files[j]))
  }

  /** Index of the first falsy entry of `emails`, or its length. */
  function FirstFalsy(entries: seq<Option<Email>>): (n: nat)
    ensures n <= |entries|
    ensures forall k :: 0 <= k < n ==> entries[k].Some?
    ensures n < |entries| ==> entries[n].None?
  {
    FindIndex(entries, (o: Option<Email>) => o.None?)
  }

  /** The messages before the first falsy entry. */
  function Processed(entries: seq<Option<Email>>): (es: seq<Email>)
    ensures |es| == FirstFalsy(entries)
  {
    var n := FirstFalsy(entries);
    seq(n, k requires 0 <= k < n => entries[k].value)
  }

  /** A prefix of present messages followed by a falsy entry or the end is what Processed gives. */
  lemma {:induction false} ProcessedIs(entries: seq<Option<Email>>, es: seq<Email>)
    requires |es| <= |entries|
    requires forall k :: 0 <= k < |es| ==> entries[k] == Some(es[k])
    requires |es| == |entries| || entries[|es|].None?
    ensures FirstFalsy(entries) == |es| && Processed(entries) == es
  {
    FindIndexFirst(entries, (o: Option<Email>) => o.None?, |es|);
  }

  lemma {:induction false} PlacementStep(es: seq<Email>, e: Email, clock: nat -> int, upload: (string, Part) -> FileRef,
                      formatDate: int -> string)
    ensures var p := Placement(es, clock, upload, formatDate);
            var t := RenderWithUploads(e, upload, formatDate);
            Placement(es + [e], clock, upload, formatDate)
              == if IsRecent(e.date, clock(|es|)) then (p.0 + [t], p.1) else (p.0, p.1 + [t])
  {
    var xs := Rendered(es + [e], upload, formatDate);
    var flags := RecentFlags(es + [e], clock);
    assert xs[..|es|] == Rendered(es, upload, formatDate);
    assert flags[..|es|] == RecentFlags(es, clock);
  }

  lemma {:induction false} UploadCallsStep(es: seq<Email>, e: Email)
    ensures UploadCalls(es + [e]) == UploadCalls(es) + seq(|e.files|, j requires 0 <= j < |e.files| => (e.id, e.files[j]))
  {
    assert (es + [e])[..|es|] == es;
  }

  /** The attachment loop of addClientMails: one upload per attachment, in order. */
  method UploadAttachments(email: Email, upload: (string, Part) -> FileRef)
    returns (fileUrls: seq<FileRef>, calls: seq<(string, Part)>)
    ensures fileUrls == UploadedFiles(email, upload)
    ensures calls == seq(|email.files|, j requires 0 <= j < |email.files| => (email.id, email.files[j]))
  {
    fileUrls := [];
    calls := [];
    var j := 0;
    while j < |email.files|
      invariant 0 <= j <= |email.files|
      invariant fileUrls == seq(j, k requires 0 <= k < j => upload(email.id, email.files[k]))
      invariant calls == seq(j, k requires 0 <= k < j => (email.id, email.files[k]))
    {
      var url := upload(email.id, email.files[j]);
      fileUrls := fileUrls + [url];
      calls := calls + [(email.id, email.files[j])];
      j := j + 1;
    }
  }

  /** The body of the message loop of addClientMails: upload the attachments, chunk the body
      and build the toggle. */
  method RenderOne(email: Email, upload: (string, Part) -> FileRef, formatDate: int -> string)
    returns (toggle: Block, calls: seq<(string, Part)>)
    ensures toggle == RenderWithUploads(email, upload, formatDate)
    ensures calls == seq(|email.files|, j requires 0 <= j < |email.files| => (email.id, email.files[j]))
  {
    var fileUrls;
    fileUrls, calls := UploadAttachments(email, upload);
    var chunks := ChunkBody(email.body);
    toggle := RenderEmail(email, chunks, fileUrls, formatDate);
  }

  /** The entries of an array of present messages. */
  function Present(es: seq<Email>): (r: seq<Option<Email>>)
    ensures |r| == |es| && forall k :: 0 <= k < |es| ==> r[k] == Some(es[k])
  {
    seq(|es|, k requires 0 <= k < |es| => Some(es[k]))
  }

  /** The messages with their bodies' newlines escaped. */
  function EscapedBodies(es: seq<Email>): (r: seq<Email>)
    ensures |r| == |es| && forall k :: 0 <= k < |es| ==> r[k] == es[k].(body := EscapeNewlines(es[k].body))
  {
    seq(|es|, k requires 0 <= k < |es| => es[k].(body := EscapeNewlines(es[k].body)))
  }

  lemma {:induction false} PresentStep(es: seq<Email>, e: Email)
    ensures Present(es + [e]) == Present(es) + [Some(e)]
    ensures Present(EscapedBodies(es + [e])) == Present(EscapedBodies(es)) + [Some(e.(body := EscapeNewlines(e.body)))]
  {
  }

  /** Where the loop of addClientMails stops, the array holds the escaped messages up to the
      first falsy entry and the untouched entries after it. */
  lemma {:induction false} LoopExit(olds: seq<Option<Email>>, now: seq<Option<Email>>, es: seq<Email>)
    requires |now| == |olds| && |es| <= |olds|
    requires olds[..|es|] == Present(es)
    requires now[..|es|] == Present(EscapedBodies(es))
    requires now[|es|..] == olds[|es|..]
    requires |es| == |olds| || olds[|es|].None?
    ensures FirstFalsy(olds) == |es| && Processed(olds) == es
    ensures forall k :: 0 <= k < |es| ==> now[k] == Some(olds[k].value.(body := EscapeNewlines(olds[k].value.body)))
    ensures forall k :: |es| <= k < |now| ==> now[k] == olds[k]
  {
    var n := |es|;
    forall k | 0 <= k < n
      ensures olds[k] == Some(es[k]) && now[k] == Some(olds[k].value.(body := EscapeNewlines(olds[k].value.body)))
    {
      assert olds[..n][k] == olds[k];
      assert now[..n][k] == now[k];
    }
    forall k | n <= k < |now|
      ensures now[k] == olds[k]
    {
      assert now[n..][k - n] == olds[n..][k - n];
    }
    ProcessedIs(olds, es);
  }

  /** One pass of the message loop on the array: entry `|es|` is escaped and joins the prefix. */
  lemma {:induction false} EscapeStep(olds: seq<Option<Email>>, current: seq<Option<Email>>, next: seq<Option<Email>>,
                                      es: seq<Email>, email: Email)
    requires |current| == |olds| && |es| < |olds|
    requires olds[..|es|] == Present(es)
    requires current[..|es|] == Present(EscapedBodies(es))
    requires current[|es|..] == olds[|es|..]
    requires current[|es|] == Some(email)
    requires next == current[|es| := Some(email.(body := EscapeNewlines(email.body)))]
    ensures olds[..|es| + 1] == Present(es + [email])
    ensures next[..|es| + 1] == Present(EscapedBodies(es + [email]))
    ensures next[|es| + 1..] == olds[|es| + 1..]
  {
    var i := |es|;
    assert olds[i] == Some(email) by {
      assert current[i..][0] == olds[i..][0];
    }
    assert next[i + 1..] == current[i + 1..];
    assert current[i + 1..] == olds[i + 1..] by {
      assert current[i..][1..] == current[i + 1..] && olds[i..][1..] == olds[i + 1..];
    }
    assert next[..i + 1] == current[..i] + [Some(email.(body := EscapeNewlines(email.body)))];
    assert olds[..i + 1] == olds[..i] + [olds[i]];
    PresentStep(es, email);
  }

  /** One pass of the message loop of addClientMails on the `before`, `after` and upload logs:
      render the message and put its toggle in the bucket its date and the clock choose. */
  method AddToggle(ghost es: seq<Email>, i: nat, email: Email, before: seq<Block>, after: seq<Block>,
                   uploadCalls: seq<(string, Part)>, clock: nat -> int,
                   upload: (string, Part) -> FileRef, formatDate: int -> string)
    returns (before': seq<Block>, after': seq<Block>, uploadCalls': seq<(string, Part)>)
    requires i == |es|
    requires (before, after) == Placement(es, clock, upload, formatDate)
    requires uploadCalls == UploadCalls(es)
    ensures (before', after') == Placement(es + [email], clock, upload, formatDate)
    ensures uploadCalls' == UploadCalls(es + [email])
  {
    var toggle, calls := RenderOne(email, upload, formatDate);
    UploadCallsStep(es, email);
    uploadCalls' := uploadCalls + calls;
    var now := clock(i);
    PlacementStep(es, email, clock, upload, formatDate);
    if email.date > now - RecentWindowMs {
      before', after' := before + [toggle], after;
    } else {
      before', after' := before, after + [toggle];
    }
  }

  /** The message loop of addClientMails: render each message (uploading its attachments) into
      `before` or `after`, and escape its body's newlines in place, up to the first falsy entry,
      whose index is `stop`. */
  method RenderMessages(emails: array<Option<Email>>, clock: nat -> int,
                        upload: (string, Part) -> FileRef, formatDate: int -> string)
    returns (stop: nat, before: seq<Block>, after: seq<Block>, uploadCalls: seq<(string, Part)>)
    modifies emails
    ensures var olds := old(emails[..]);
            var es := Processed(olds);
            && stop == FirstFalsy(olds)
            && (forall k :: 0 <= k < stop ==> emails[k] == Some(olds[k].value.(body := EscapeNewlines(olds[k].value.body))))
            && (forall k :: stop <= k < emails.Length ==> emails[k] == olds[k])
            && uploadCalls == UploadCalls(es)
            && (before, after) == Placement(es, clock, upload, formatDate)
  {
    ghost var olds := emails[..];
    ghost var es: seq<Email> := [];
    before, after, uploadCalls := [], [], [];
    var i := 0;
    while i < emails.Length && emails[i].Some?
      invariant 0 <= i <= emails.Length && |es| == i
      invariant olds[..i] == Present(es)
      invariant emails[..i] == Present(EscapedBodies(es))
      invariant emails[i..] == olds[i..]
      invariant uploadCalls == UploadCalls(es)
      invariant (before, after) == Placement(es, clock, upload, formatDate)
    {
      var email := emails[i].value;
      ghost var current := emails[..];
      before, after, uploadCalls := AddToggle(es, i, email, before, after, uploadCalls, clock, upload, formatDate);
      emails[i] := Some(email.(body := EscapeNewlines(email.body)));
      EscapeStep(olds, current, emails[..], es, email);
      es := es + [email];
      i := i + 1;
    }
    assert i < emails.Length ==> olds[i] == emails[i] by {
      if i < emails.Length {
        assert emails[i..][0] == olds[i..][0];
      }
    }
    LoopExit(olds, emails[..], es);
    stop := i;
  }

  /** addClientMails: resolve or create the client's page, run the message loop, and append the
      recent toggles after the page's first block and the others at the end. A falsy entry
      stops the loop and no append is made. */
  method AddClientMails(existing: seq<ClientPage>, client: string, emails: array<Option<Email>>,
                        createPage: string -> string, firstBlockOf: string -> Option<string>,
                        clock: nat -> int, upload: (string, Part) -> FileRef, formatDate: int -> string)
    returns (createdPage: bool, pageId: string, uploadCalls: seq<(string, Part)>, appends: seq<Append>)
    modifies emails
    ensures var found := GetClientId(existing, client);
            && createdPage == (found.None? || found.value.id == "")
            && pageId == if createdPage then createPage(client) else found.value.id
    ensures var olds := old(emails[..]);
            var n := FirstFalsy(olds);
            var es := Processed(olds);
            && (forall k :: 0 <= k < n ==> emails[k] == Some(olds[k].value.(body := EscapeNewlines(olds[k].value.body))))
            && (forall k :: n <= k < emails.Length ==> emails[k] == olds[k])
            && uploadCalls == UploadCalls(es)
            && (n < emails.Length ==> appends == [])
            && (n == emails.Length ==>
                  var p := Placement(es, clock, upload, formatDate);
                  appends == [Append(pageId, firstBlockOf(pageId), p.0), Append(pageId, None, p.1)])
  {
    var clientDetails := GetClientId(existing, client);
    pageId := if clientDetails.Some? then clientDetails.value.id else "";
    createdPage := false;
    if pageId == "" {
      createdPage := true;
      pageId := createPage(client);
    }
    var firstBlock := firstBlockOf(pageId);
    var stop, before, after;
    stop, before, after, uploadCalls := RenderMessages(emails, clock, upload, formatDate);
    appends := [];
    if stop < emails.Length {
      // a falsy entry ends addClientMails before any append
      return;
    }
    appends := [Append(pageId, firstBlock, before), Append(pageId, None, after)];
  }
}
