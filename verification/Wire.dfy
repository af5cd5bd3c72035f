/** JSON-RPC 2.0 frames as the continuity host sees them: the exact payload bytes together with
    the envelope that parsing found in them. JSON parsing itself is a parameter of the model. */
module Wire {

  datatype Option<+T> = None | Some(value: T)

  type byte = b: nat | b < 256
  type Payload = seq<byte>
  type u8 = n: nat | n < 256
  type u64 = n: nat | n < 0x1_0000_0000_0000_0000

  /** Text that the host only ever compares for equality. */
  type Name(==, !new)

  /** Public ids are numbers or text. Ids made by the host are text too; they are kept apart
      here by the fields that their rendering embeds. */
  datatype RequestId =
    | Number(literal: Name)
    | Text(text: Name)
    | Internal(worker: nat, serial: nat)
    | Callback(serial: nat)

  /** Method tokens that some branch of the host distinguishes; every other token is `Other`. */
  datatype Method =
    | Initialize
    | Initialized
    | NotificationsInitialized
    | NotificationsCancelled
    | ToolsCall
    | ToolsList
    | ReadOnly(surface: ReadOnlySurface)
    | Other(name: Name)

  /** Standard request surfaces that are always replay-safe. */
  datatype ReadOnlySurface =
    Ping | ResourcesList | ResourcesTemplatesList | ResourcesRead | PromptsList | PromptsGet | CompletionComplete

  predicate IsInitializedNotification(m: Method) {
    m.Initialized? || m.NotificationsInitialized?
  }

  datatype Envelope =
    | Request(id: RequestId, rpc: Method)
    | Notification(note: Method)
    | Response(id: RequestId, hasError: bool)

  datatype Frame = Frame(payload: Payload, envelope: Envelope)

  /** What `FramedMessage::parse` makes of a payload; `None` is a rejected payload. */
  type Parser = Payload -> Option<Envelope>

  /** Frames exist only as the result of a successful parse of their own payload. */
  predicate Sealed(f: Frame, parse: Parser) {
    parse(f.payload) == Some(f.envelope)
  }

  predicate Carries(f: Frame, id: RequestId) {
    f.envelope.Request? && f.envelope.id == id
  }
}
