# gmailToNotion, modelled in Dafny

gmailToNotion imports client e-mail from a Gmail inbox into Notion. A static client table
(`config.clients`) gives each client a name and a list of sender-address fragments. One run
does five things:

- Builds a Gmail search query for the handled addresses that leaves out messages already
  labelled `importedInNotion`.
- Fetches and normalises each candidate message: subject, sender, recipient, date, HTML body
  converted to Markdown, and attachments.
- Groups the messages by the first client whose fragment occurs in the sender, in a map kept
  in insertion order.
- Finds the client's Notion page (creating it if it is missing) and renders each message as a
  toggle block. The toggle holds the bold header, `mailto:` links for the sender and
  recipient addresses, the body cut into at most 100 quote runs of 2000 characters, and one
  file block per attachment.
- Appends the toggles in two batches. Messages from the last fifteen minutes go right after
  the page's first block; older ones go at the end of the page.

The model covers the three service modules:

| Dafny module | models |
|---|---|
| `Google` (google.dfy) | `services/google.js`: client table, sender classification, query, header lookup, body selection, attachments, normalisation, grouping, label lookup, token expiry, and the module state as `class GmailSession` |
| `EmailScan` (email_scan.dfy) | the address regular expression of `cleanEmailAddresses` (`services/notion.js`), as a left-to-right scanner |
| `Notion` (notion.dfy) | `services/notion.js`: existing client pages, page lookup, body chunking, newline escaping, toggle rendering, recent/old placement, and `addClientMails` as a method over an array |
| `Import` (utils.dfy) | `services/utils.js`: the mail count and the per-client dispatch, as a log of the remote calls made |
| `Seqs`, `Text`, `OrderedMaps`, `Mail`, `Wrappers` | the JavaScript built-ins the code relies on (`find`, `filter`, `new Set`, `join`, `includes`, `Map`) and the record shapes |

How the model treats what lies outside the code:

- **Remote calls:** every Gmail and Notion call is an input. The Gmail calls, the listing of
  the Notion pages and each client's write reply with a `Reply<T>` or a flag: `Ok(value)`, or
  `Fault` when the call throws or rejects. The page creation, the first-block lookup and the
  uploads are total functions, and the two block appends are outputs of the model.
- **Foreign libraries:** these are function parameters.
  - `base64url.decode` is `decode`.
  - `NodeHtmlMarkdown.translate` is `toMarkdown`.
  - The Paris-time date format is `formatDate`.
  - The Drive upload is `upload`.
  - The page creation is `createPage`.
  - The first-block lookup is `firstBlockOf`.
- **Clock:** the clock is a parameter. Each reading is its own value. `nowMs` and `labelNowMs`
  are the two `new Date()` readings of `refreshAuthToken` during `getFormatedMails`: one through
  its own `getGmailClient` call and one through `getLabelId`'s. `clock(i)` is the `moment()`
  read while message `i` is handled.
- **Falsy messages:** a falsy entry of the message array is `None`.

## Model

| member | source | states |
|---|---|---|
| Google.HandledAddressesMembers | services/google.js:13-22 | `HandledAddresses` holds every fragment of every client, and nothing that is not some client's fragment |
| Google.HandledAddressesAppend | services/google.js:13-22 | the fragment list of two client tables is the concatenation of their lists |
| Google.HandledAddressesLayout | services/google.js:13-22 | client i's fragments appear, in their own order and with duplicates kept, between those of the earlier and the later clients |
| Google.GetHandledEmailAddresses | services/google.js:13-22 | the nested loop collects every client's fragments in client order, then fragment order |
| Google.ClassifyMeans | services/google.js:24-34 | `Classify` gives null exactly when no client has a fragment contained in the address; otherwise a name of a client that has one |
| Google.FirstMatchingClient | services/google.js:24-34 | the index returned is the first client that has a fragment contained in the address; no earlier client has one |
| Google.ClassifyIsFirstMatch | services/google.js:24-34 | the classification is the name of that first matching client, or null when no client matches |
| Google.IsHandledEmailAddress | services/google.js:24-34 | the nested loop with early return computes exactly that first-match classification |
| Google.Route | services/google.js:205-207 | a message is kept under a client exactly when the classification gives a non-empty name; null and the empty name drop it |
| Text.Includes | services/google.js:27 | `includes` holds exactly when the fragment occurs as a substring of the address |
| Google.FromClauseShape | services/google.js:125-129 | no fragments, or one empty fragment, give an empty clause; otherwise the clause is `{from:a from:b ...}` |
| Text.JoinEmpty | services/google.js:125-127 | with a non-empty separator, a join is empty exactly when the list is empty or is one empty string |
| Text.JoinPrefixed | services/google.js:125-128 | joining with `" from:"` after a leading `from:` equals joining the `from:`-prefixed fragments with spaces |
| Google.BuildGmailQuery | services/google.js:122-132 | the query always starts with `label:inbox ` |
| Google.GmailQueryShape | services/google.js:122-131 | with fragments, the query is `label:inbox {from:...} NOT label:importedInNotion` |
| Google.GmailQueryWithoutAddresses | services/google.js:122-131 | without fragments, the query is `label:inbox ` followed by ` NOT label:importedInNotion` (two spaces in the middle) |
| Google.FindHeader | services/google.js:172-176 | the value of the first header with that name; absent exactly when no header has the name |
| Google.TruthyData | services/google.js:187 | a part body counts exactly when its data is present and non-empty, and the data returned is that body's |
| Google.SelectBody | services/google.js:180-195 | the body fails exactly when there are no parts and the top-level body exists without data (decoding undefined throws); non-empty parts without a direct `text/html` part give ""; no parts give the decoded top-level data, or "" without a top-level body |
| Google.FirstDirectHtmlDecides | services/google.js:184-189 | the first direct `text/html` part decides: its decoded data, or "" when that part has no data |
| Google.NestedPartsNotInspected | services/google.js:184-189 | the body does not depend on parts nested below the direct parts |
| Google.NestedHtmlGivesEmptyBody | services/google.js:184-189 | an HTML part nested in a `multipart/alternative` part yields the empty body |
| Google.Attachments | services/google.js:197 | the attachments are exactly the direct parts with a non-empty filename |
| Google.AttachmentsInPartOrder | services/google.js:197 | the attachment filter keeps part order (distributes over concatenation) |
| Google.Normalize | services/google.js:170-222 | a message normalises exactly when Subject, From and To are present, parts exist and the body can be selected; the record then carries the id, the internal date, the three first header values, the Markdown of the selected body and the attachments |
| Google.FetchOne | services/google.js:165-175 | a failed `messages.get` gives no record; a successful one gives the normalisation of the fetched message, which keeps the id it was requested under |
| Google.NormalizeAll | services/google.js:164-226 | when every message normalises, the result has one record per id, in listing order |
| Google.NormalizeAllSucceedsIffEach | services/google.js:164-226 | the fetch succeeds exactly when every listed message fetches and normalises |
| Google.NormalizeAllIsEachFetch | services/google.js:164-226 | when it succeeds, record i is the fetched and normalised message i |
| Google.NormalizeAllFailureSticks | services/google.js:164-233 | once one fetch or normalisation fails, the whole fetch fails, since the error reaches the outer catch |
| Google.NormalizeAllStep | services/google.js:164-226 | one more successful message extends the result by its record |
| Google.GroupEmailsStep | services/google.js:205-224 | a routed message is appended to its client's list (created when absent); an unrouted one leaves the map unchanged |
| Google.GroupEmails | services/google.js:205-225 | the grouping is a well-formed map (distinct keys, each bound); its contents are stated by the next two rows |
| Google.GroupedBuckets | services/google.js:205-225 | a client's bucket holds exactly the messages routed to it, in arrival order, and is absent when there are none |
| Google.GroupedKeysInFirstMatchOrder | services/google.js:205-225 | the map's keys are the routed client names, deduplicated in order of first occurrence |
| OrderedMaps.OrderedMap.Set | services/google.js:224 | `Map.set` binds the key and leaves other keys alone; a new key goes last in iteration order, an existing key keeps its place |
| Google.CollectMails | services/google.js:159-229 | no listed messages give an empty map; otherwise the grouping of the normalised messages, or failure when one message fails |
| Google.FindLabelId | services/google.js:236-248 | the id of the first label named `importedInNotion`; absent exactly when there is none |
| Google.NeedsRefresh | services/google.js:90-92 | a refresh is due exactly when a stored expiry exists and is at most the current time in whole seconds |
| Google.FloorSeconds | services/google.js:91 | `Math.floor(ms / 1000)` is the whole number of seconds below the time |
| Google.GmailSession.constructor | services/google.js:11-41 | the OAuth client starts without credentials; nothing is saved and `labelId` is unset; the environment's tokens carry the same expiry that the refresh test reads |
| Google.GmailSession.RefreshAuthToken | services/google.js:90-108 | when due and the refresh succeeds, the new tokens are saved and installed; otherwise nothing changes; a failed refresh throws |
| Google.GmailSession.GetGmailClient | services/google.js:110-120 | credentials are reset to the environment's tokens, then refreshed when due |
| Google.GmailSession.GetLabelId | services/google.js:236-248 | the reply is the first matching label id, or a fault when the client or the listing fails |
| Google.GmailSession.GetFormatedMails | services/google.js:134-234 | describes the two client set-ups, each with its own clock reading and refresh (the second, inside `getLabelId`, decides the final credentials); the label lookup, the label creation when the id is falsy, the stored `labelId`, the `messages.list` request (the built query, 10 results), the saved tokens, and the grouped mail map; any fault yields an empty map |
| EmailScan.AddressRunEnd | services/notion.js:85 | the end of the maximal run of `[\w.-]` characters |
| EmailScan.LetterRunEnd | services/notion.js:85 | the end of the maximal run of ASCII letters |
| EmailScan.LastTld | services/notion.js:85 | the last dot before `hi` that is followed by at least two letters, found by backtracking |
| EmailScan.MatchAt | services/notion.js:85 | a match found at a position is a substring of the form local@domain.tld |
| EmailScan.MatchAtComplete | services/notion.js:85 | conversely, a non-empty local run, `@`, a non-empty domain run, a dot and two or more letters starting at a position give a match there |
| EmailScan.MatchShaped | services/notion.js:85 | a local run, `@`, a domain run, a dot and two or more letters form an address |
| EmailScan.MatchAll | services/notion.js:85-87 | every global match is address-shaped and occurs in the header |
| EmailScan.NoAddressWithoutAt | services/notion.js:85-87 | a stretch without `@` contributes no match |
| EmailScan.MatchAllAtMatch | services/notion.js:85-87 | after a match, scanning resumes at the match's end |
| EmailScan.CleanEmailAddresses | services/notion.js:84-90 | the cleaned addresses are distinct, address-shaped substrings of the header |
| EmailScan.CleanedAreDistinctMatches | services/notion.js:84-90 | the cleaned list holds the same addresses as the matches, in order of first match; no match gives an empty list |
| EmailScan.CleanSampleHeader | services/notion.js:84-90 | `A <a@x.com>, B <a@x.com>` cleans to the single address `a@x.com` |
| Seqs.Dedup | services/notion.js:89 | `[...new Set(xs)]` is duplicate-free and holds exactly the elements of `xs` |
| Seqs.DedupFirstOccurrenceOrder | services/notion.js:89 | the deduplicated elements keep the order of their first occurrence |
| Notion.ExistingClients | services/notion.js:69-76 | exactly the blocks that are child pages with a non-empty title become client pages (id and title) |
| Notion.ExistingClientsInOrder | services/notion.js:69-74 | the filter and map keep block order (distribute over concatenation) |
| Notion.GetClientId | services/notion.js:98-102 | the first page whose name equals the client name; absent exactly when no page has that name |
| Notion.SplitProperties | services/notion.js:158-161 | the unbounded split has ceil(n/2000) chunks, each non-empty and at most 2000 long, all but the last full, and they concatenate back to the body |
| Notion.ChunkBounds | services/notion.js:158-161 | with the 100-chunk cap there are min(ceil(n/2000), 100) chunks, and they concatenate to the first 200000 characters |
| Notion.ChunkCounts | services/notion.js:158-161 | an empty body gives no chunk, 2000 characters give one, 4001 give three |
| Notion.ChunkBody | services/notion.js:158-161 | the chunking loop computes exactly that capped split |
| Notion.EscapeNewlines | services/notion.js:215 | the escaped body contains no newline, and a body without newlines is unchanged |
| Notion.EscapeNewlinesChar | services/notion.js:215 | a newline becomes a backslash followed by `n`; every other character is kept |
| Notion.EscapeNewlinesAppend | services/notion.js:215 | escaping distributes over concatenation, so each newline is replaced in place |
| Notion.HeaderText | services/notion.js:163-176 | the header is bold and unlinked: `Objet : `, the subject, a line break, the formatted date and ` - De : ` |
| Notion.TextRuns | services/notion.js:226 | the runs are the header, one per sender, the `À : ` label, one per recipient |
| Notion.RenderEmail | services/notion.js:221-252 | a toggle whose first child is a quote with one plain run per chunk, followed by one external file block per uploaded file, in order |
| Notion.Placement | services/notion.js:217-285 | the `before` batch has one toggle per recent message, and the two batches together have one per message |
| Notion.AddressLinks | services/notion.js:178-187 | one run per address: the address and a space, linked to `mailto:` plus the address, not bold |
| Notion.TextRunsShape | services/notion.js:226 | the runs are the header, the sender links, the bold `À : ` label, then the recipient links |
| Notion.ToggleTextShape | services/notion.js:163-226 | the toggle's first run is the bold `Objet : <subject>\n<date> - De : `, followed by one link per cleaned From address, the `À : ` label and one link per cleaned To address |
| Notion.ToggleChildrenShape | services/notion.js:227-250 | the toggle holds one quote whose runs concatenate to the truncated body, then one file block per attachment, in order |
| Notion.UploadedFiles | services/notion.js:151-156 | one upload per attachment |
| Notion.UploadAttachments | services/notion.js:151-156 | the upload loop calls the uploader once per attachment, in order, with the message id |
| Notion.RenderOne | services/notion.js:151-252 | the per-message work yields the rendered toggle and the upload calls made for it |
| Notion.UploadCallsStep | services/notion.js:146-156 | each handled message adds its attachments' uploads, in order |
| Notion.PlacementStep | services/notion.js:217-285 | a message dated strictly after now minus 15 minutes goes to the end of the `before` batch, any other to the end of `after` |
| Notion.PlacementOfMessage | services/notion.js:217-285 | the batches split the messages; message i sits in `before` at the count of earlier recent messages, or in `after` at the count of earlier old ones |
| Seqs.PartitionIsPermutation | services/notion.js:221-285 | the two batches together are a permutation of the messages |
| Seqs.PartitionPlacement | services/notion.js:221-285 | each item lands in the bucket its flag names, at the position given by the earlier flags |
| Notion.FirstFalsy | services/notion.js:146-147 | the loop stops at the first falsy entry, or after the last entry |
| Notion.RenderMessages | services/notion.js:146-286 | the loop escapes the bodies of the entries before the first falsy one in place, leaves the rest unchanged, and returns the uploads and the two batches of those entries |
| Notion.AddClientMails | services/notion.js:122-293 | a missing page or empty id creates the page; with a falsy entry nothing is appended; otherwise `before` goes after the first block and `after` at the end of the page |
| Import.Calls | services/utils.js:18-20 | the k-th dispatch is for the k-th key of the map, with that key's messages and the listed pages |
| Import.CallsStep | services/utils.js:18-20 | each dispatch extends the log by one call |
| Import.ImportMailsIntoNotion | services/utils.js:4-24 | the mail count is the length of the flattened map; the pages are listed once; clients are dispatched in key order until one call rejects; a failed listing stops the run |
| Import.DispatchOncePerClient | services/utils.js:18-20 | no client is dispatched twice, since the map's keys are distinct |
| Import.Flattened | services/utils.js:10 | the flattened list holds exactly the messages of the map's buckets |
| Import.GroupedMailsAreRouted | services/utils.js:7-11 | the flattened map is a permutation of the messages that are routed to a client |
| Import.GroupedMailCount | services/utils.js:7-11 | the mail count equals the number of routed messages |
| Import.BindParam | services/utils.js:19 | parameter k receives the k-th argument, or undefined when fewer are passed |
| Import.LookupOnArgs | services/notion.js:98-102 | the page lookup throws exactly when `existingClients` has no `find` (neither the page array nor the message array); on the pages it is `getClientId` for a string name and undefined otherwise; on a message array it is the first message when the name is undefined (a message has no `name`) and undefined otherwise |
| Import.AsWrittenLookupThrows | services/utils.js:19 | with three arguments for four parameters, `existingClients` is the client name, `emails` is undefined and the lookup throws |
| Import.IntendedLookupFindsPage | services/notion.js:122-123 | with the configuration passed first, the lookup is `getClientId` on the listed pages |

## Findings

| source | as written | input that shows it | evidently intended | confidence | as-written member | corrected member |
|---|---|---|---|---|---|---|
| services/utils.js:19 | `addClientMails(existingClients, client, clientMails)` passes three arguments to a function that declares four parameters (`userConfig, existingClients, client, emails`, services/notion.js:122) | any run with at least one client bucket: `existingClients` is bound to the client name, so `existingClients.find` at services/notion.js:99 throws | pass the user configuration first, so that each parameter receives its namesake | high (not executed) | Import.AsWrittenLookupThrows | Import.IntendedLookupFindsPage |

`Import.ImportMailsIntoNotion` and `Notion.AddClientMails` use the intended binding. Whether a
client's write resolves is the `writeResolves` input, so the as-written behaviour is the case
where it rejects for the first client.

## Left out

- The OAuth authorisation flow (`requestGoogleAuthorizationCode`, its Express server and the
  redirect handler) and `saveGoogleTokens`' `.env` file rewrite are left out. They are I/O;
  the model records the saved tokens as `GmailSession.savedTokens`.
- `markMailAsHandled` is not modelled. No caller in the repository uses it, and it is one
  remote call.
- `createPage`, `getPageContent` and `getPageFirstBlock` are remote Notion calls. Their results
  are the parameters `createPage` and `firstBlockOf` and the listed blocks of
  `Notion.ExistingClients`.
- The Gmail API replies are `GmailReplies`. `getFormatedMails` calls `getGmailClient` twice,
  directly and inside `getLabelId`. Each call has its own refresh reply and clock reading.
- `base64url.decode`, `NodeHtmlMarkdown.translate`, the Europe/Paris date format and the Drive
  upload are left out as foreign code. They are function parameters, and their output is not
  constrained.
- `pushFileToDrive` is required from services/google.js, which does not export it. It is the
  `upload` parameter here, and the missing export is not modelled.
- Dates are whole milliseconds. The model does not capture the sub-second rounding of
  `moment.unix(internalDate / 1000)`.
- Google.NeedsRefresh compares the stored expiry with the current time in seconds, as the code
  does. The stored value comes from `expiry_date`, which Google reports in milliseconds, so
  the refresh may never fire. The model does not decide that unit.
- HTML lookup in nested MIME parts, `To`/`CC` matching and multiple tenants are described for
  the system but are not in this code. The model follows the code: only direct parts are
  searched (`Google.NestedHtmlGivesEmptyBody`).
- Logging (`console.log`, `logger.info`) is left out, and so is the catch's error printout.
- The argument mismatch of the Finding is modelled only up to the lookup that throws. The rest
  of the failing call is not modelled.
- Notion.UploadedFiles states only the number of uploads on its own. The URLs and names it
  yields are stated by `Notion.ToggleChildrenShape`.
- Notion.AddClientMails does not model a rejection of `createPage`, `getPageFirstBlock`, an
  upload or a block append. Each would end the call after partial work; here they always
  succeed, and a client's write as a whole is the `writeResolves` input of the dispatch.
- Notion.ChunksOf, Notion.ChunkBody, Notion.ChunkBounds and Notion.SplitProperties count
  lengths in Unicode characters, while JavaScript's `length` and `slice` count UTF-16 code
  units. A body of 2000 emoji is two chunks in JavaScript and one here, the 200000-unit cap
  differs the same way, and a chunk boundary inside a surrogate pair cannot be represented.
