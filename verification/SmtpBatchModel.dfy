/**
 * One SMTP session and the batch of mails sent over it (authenticateSmtpSession,
 * sendSmtpMailWithSession and sendSmtpMailBatch of src/utils/smtp-client.ts). The
 * server and the network are a script of answers, the result callback a script of
 * throws; both are arbitrary.
 */
module SmtpBatchModel {
  import opened Common

  datatype Mail = Mail(id: string, to: string)

  /** What the session waits for: a command it wrote, the greeting, or the TLS handshake. */
  datatype Command =
    | Greeting | Ehlo | StartTls | Handshake | Auth
    | MailFrom | RcptTo(to: string) | Data
    /** The message, stuffed and ended by a line with a dot. */
    | Payload(id: string)
    | Rset | Quit

  /** The codes `expect` lets through. */
  predicate Accepts(c: Command, code: int) {
    match c
    case Greeting => code == 220
    case Ehlo => code == 250
    case StartTls => code == 220
    case Handshake => true
    case Auth => code == 235
    case MailFrom => code == 250
    case RcptTo(_) => code == 250 || code == 251
    case Data => code == 354
    case Payload(_) => code == 250
    case Rset => code == 250
    case Quit => code == 221
  }

  datatype Answer =
    /** The socket was found destroyed before anything was written. */
    | Closed
    | Code(code: int)
    /** An error or a timeout, of the response or of the whole mail: the socket is destroyed. */
    | Broken

  /** A command that was written, and the code it got, if any. */
  datatype Exchange = Exchange(command: Command, code: Option<int>)

  predicate Accepted(x: Exchange) { x.code.Some? && Accepts(x.command, x.code.value) }

  datatype Error = SocketClosed | Unexpected(code: int) | Failed | CallbackThrew

  /** None is success. */
  type Outcome = Option<Error>

  /** `script` holds the answers to come; when it runs out, the server is silent and the wait times out. */
  datatype Session = Session(open: bool, script: seq<Answer>, trace: seq<Exchange>)

  function Ask(s: Session, c: Command): (Session, Outcome) {
    if !s.open then (s, Some(SocketClosed))
    else
      var answer := if s.script == [] then Broken else s.script[0];
      var rest := if s.script == [] then [] else s.script[1..];
      match answer
      case Closed => (Session(false, rest, s.trace), Some(SocketClosed))
      case Broken => (Session(false, rest, s.trace + [Exchange(c, None)]), Some(Failed))
      case Code(code) =>
        (Session(true, rest, s.trace + [Exchange(c, Some(code))]),
         if Accepts(c, code) then None else Some(Unexpected(code)))
  }

  /** Commands one after the other, up to the first that fails. */
  function AskAll(s: Session, commands: seq<Command>): (Session, Outcome)
    decreases |commands|
  {
    if commands == [] then (s, None)
    else
      var (t, outcome) := Ask(s, commands[0]);
      if outcome.Some? then (t, outcome) else AskAll(t, commands[1..])
  }

  /** How the server is reached: `secure` starts with TLS, anything else upgrades to it except on port 25. */
  datatype Server = Server(secure: bool, port: nat) {
    predicate Upgrades() { !secure && port != 25 }
  }

  function AuthCommands(server: Server): seq<Command> {
    [Greeting, Ehlo] + (if server.Upgrades() then [StartTls, Handshake, Ehlo] else []) + [Auth]
  }

  function MailCommands(m: Mail): seq<Command> { [MailFrom, RcptTo(m.to), Data, Payload(m.id)] }

  function Destroyed(s: Session): Session { s.(open := false) }

  /** close(): QUIT unless the socket is gone, and the end of the socket whatever the answer. */
  function Ended(s: Session): Session {
    if !s.open then s else Destroyed(Ask(s, Quit).0)
  }

  // ── The batch ──

  datatype Result = Result(id: string, error: Outcome)

  /**
   * `results` are the results recorded, each handed to the callback at once; `throws`
   * says of the coming calls of the callback whether they throw, and `threw` that an
   * exception has left the loop.
   */
  datatype Batch = Batch(session: Session, results: seq<Result>, throws: seq<bool>, threw: bool)

  predicate NextThrows(b: Batch) { b.throws != [] && b.throws[0] }

  function Record(b: Batch, r: Result): Batch {
    b.(results := b.results + [r], throws := if b.throws == [] then [] else b.throws[1..])
  }

  /** The catch block: the failure is recorded, and an open session is reset or given up. */
  function Recover(b: Batch, id: string, error: Error): Batch {
    var c := Record(b, Result(id, Some(error)));
    if NextThrows(b) then c.(threw := true)
    else if !b.session.open then c
    else
      var (s, outcome) := Ask(b.session, Rset);
      c.(session := if outcome.Some? then Destroyed(s) else s)
  }

  /** One turn of the loop. */
  function SendOne(b: Batch, m: Mail): Batch {
    if !b.session.open then
      Record(b, Result(m.id, Some(SocketClosed))).(threw := NextThrows(b))
    else
      var (s, outcome) := AskAll(b.session, MailCommands(m));
      var sent := b.(session := s);
      match outcome
      case Some(error) => Recover(sent, m.id, error)
      case None =>
        var c := Record(sent, Result(m.id, None));
        if NextThrows(sent) then Recover(c, m.id, CallbackThrew) else c
  }

  function SendAll(b: Batch, mails: seq<Mail>): Batch {
    if mails == [] then b
    else
      var before := SendAll(b, mails[..|mails| - 1]);
      if before.threw then before else SendOne(before, mails[|mails| - 1])
  }

  /** The mails of a call: the first `maxMessages`, but at least one. */
  function Taken(mails: seq<Mail>, maxMessages: int): (taken: seq<Mail>)
    ensures taken <= mails && (mails != [] ==> taken != [])
    ensures |taken| <= Max(1, maxMessages) && (|taken| < |mails| ==> |taken| == Max(1, maxMessages))
  {
    mails[..Min(|mails|, Max(1, maxMessages))]
  }

  /** How a call of sendSmtpMailBatch ended; `results` are also what the callback got. */
  datatype Call = Call(results: seq<Result>, returned: bool, trace: seq<Exchange>)

  /** Everything the call depends on: how the server is reached, and how network and callback behave. */
  datatype World = World(server: Server, connects: bool, script: seq<Answer>, throws: seq<bool>)

  function Authenticated(w: World): (Session, Outcome) {
    AskAll(Session(true, w.script, []), AuthCommands(w.server))
  }

  function SendBatch(w: World, mails: seq<Mail>, maxMessages: int): Call {
    var batch := Taken(mails, maxMessages);
    if batch == [] then Call([], true, [])
    else if !w.connects then Call([], false, [])
    else
      var (s, outcome) := Authenticated(w);
      if outcome.Some? then Call([], false, Ended(s).trace)
      else
        var b := SendAll(Batch(s, [], w.throws, false), batch);
        Call(b.results, !b.threw, Ended(b.session).trace)
  }
}
