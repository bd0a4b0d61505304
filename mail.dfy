/** The records that flow from the Gmail side to the Notion side of the import. */
module Mail {
  import opened Wrappers

  /** One entry of the configured client table: a page name and the address fragments that route to it. */
  datatype Client = Client(name: string, emailAddresses: seq<string>)

  datatype Header = Header(name: string, value: string)

  /** A MIME part body; `data` is base64url text and may be absent. */
  datatype PartBody = PartBody(data: Option<string>)

  /** A MIME part as Gmail returns it; `parts` are its own nested children. */
  datatype Part = Part(mimeType: string, filename: string, body: Option<PartBody>, parts: seq<Part>)

  /** The top-level payload of a fetched message; `parts` is absent for a single-part message. */
  datatype Payload = Payload(headers: seq<Header>, body: Option<PartBody>, parts: Option<seq<Part>>)

  /** The reply of `messages.get`; `internalDate` is in milliseconds since the epoch. */
  datatype RawMessage = RawMessage(internalDate: int, payload: Payload)

  /** A normalised message: `date` in milliseconds since the epoch, `body` in Markdown,
      `files` the attachment parts. */
  datatype Email = Email(id: string, subject: string, date: int, from: string, to: string,
                         body: string, files: seq<Part>)

  datatype Label = Label(id: string, name: string)

  /** OAuth credentials; `expiryDate` is in milliseconds since the epoch, and absent when the
      environment has none. */
  datatype Tokens = Tokens(accessToken: string, refreshToken: string, expiryDate: Option<int>)
}
