/**
 * What a batch keeps to, for every behaviour of server, network and callback:
 * sections 3.3 and 4.1.1.5 of RFC 5321, and one result for each mail.
 */
module SmtpBatchProofs {
  import opened Common
  import opened SmtpBatchModel

  // ── The order of commands ──

  /** A transaction may start: the session is fresh, its last message was accepted, or it was reset. */
  predicate MayStart(trace: seq<Exchange>) {
    trace != [] &&
    var last := trace[|trace| - 1];
    Accepted(last) && (last.command.Auth? || last.command.Payload? || last.command.Rset?)
  }

  predicate After(trace: seq<Exchange>, c: Command) {
    trace != [] && trace[|trace| - 1].command == c && Accepted(trace[|trace| - 1])
  }

  predicate AfterRecipient(trace: seq<Exchange>) {
    trace != [] && trace[|trace| - 1].command.RcptTo? && Accepted(trace[|trace| - 1])
  }

  /** What RFC 5321 asks of a command, given the exchanges before it. */
  predicate Permitted(trace: seq<Exchange>, c: Command) {
    match c
    case MailFrom => MayStart(trace)
    case RcptTo(_) => After(trace, MailFrom)
    case Data => AfterRecipient(trace)
    case Payload(_) => After(trace, Data)
    case _ => true
  }

  ghost predicate Disciplined(trace: seq<Exchange>) {
    forall k :: 0 <= k < |trace| ==> Permitted(trace[..k], trace[k].command)
  }

  lemma AppendKeepsDiscipline(trace: seq<Exchange>, x: Exchange)
    requires Disciplined(trace) && Permitted(trace, x.command)
    ensures Disciplined(trace + [x])
  {
    var t := trace + [x];
    forall k | 0 <= k < |t| ensures Permitted(t[..k], t[k].command) {
      if k < |trace| { assert t[..k] == trace[..k]; } else { assert t[..k] == trace; }
    }
  }

  lemma AskKeepsDiscipline(s: Session, c: Command)
    requires Disciplined(s.trace) && Permitted(s.trace, c)
    ensures var (t, outcome) := Ask(s, c);
      && Disciplined(t.trace)
      && (outcome.None? ==> t.open && After(t.trace, c))
      && (t.open && outcome.Some? ==> s.open)
  {
    var (t, _) := Ask(s, c);
    if t.trace != s.trace { AppendKeepsDiscipline(s.trace, t.trace[|s.trace|]); }
  }

  /** `b` may come right after `a` was accepted. */
  predicate Follows(a: Command, b: Command) {
    match b
    case MailFrom => a.Auth? || a.Payload? || a.Rset?
    case RcptTo(_) => a.MailFrom?
    case Data => a.RcptTo?
    case Payload(_) => a.Data?
    case _ => true
  }

  ghost predicate Chained(commands: seq<Command>) {
    forall i :: 0 <= i < |commands| - 1 ==> Follows(commands[i], commands[i + 1])
  }

  lemma {:induction false} ChainKeepsDiscipline(s: Session, commands: seq<Command>)
    requires Disciplined(s.trace) && Chained(commands) && commands != [] && Permitted(s.trace, commands[0])
    ensures var (t, outcome) := AskAll(s, commands);
      Disciplined(t.trace) && (outcome.None? ==> t.open && After(t.trace, commands[|commands| - 1]))
    decreases |commands|
  {
    var (t, outcome) := Ask(s, commands[0]);
    AskKeepsDiscipline(s, commands[0]);
    if outcome.None? && |commands| > 1 {
      assert Follows(commands[0], commands[1]);
      ChainKeepsDiscipline(t, commands[1..]);
    }
  }

  lemma MailKeepsDiscipline(s: Session, m: Mail)
    requires Disciplined(s.trace) && MayStart(s.trace)
    ensures var (t, outcome) := AskAll(s, MailCommands(m));
      Disciplined(t.trace) && (outcome.None? ==> t.open && After(t.trace, Payload(m.id)))
  {
    ChainKeepsDiscipline(s, MailCommands(m));
  }

  /** The loop's invariant: the session is closed or may start a transaction, unless an exception left. */
  ghost predicate Ready(b: Batch) {
    Disciplined(b.session.trace) && (b.threw || !b.session.open || MayStart(b.session.trace))
  }

  lemma RecoverIsReady(b: Batch, id: string, error: Error)
    requires Disciplined(b.session.trace)
    ensures Ready(Recover(b, id, error))
  {
    AskKeepsDiscipline(b.session, Rset);
  }

  lemma SendOneIsReady(b: Batch, m: Mail)
    requires Ready(b) && !b.threw
    ensures Ready(SendOne(b, m))
  {
    if b.session.open {
      MailKeepsDiscipline(b.session, m);
      var (s, outcome) := AskAll(b.session, MailCommands(m));
      var sent := b.(session := s);
      if outcome.Some? {
        RecoverIsReady(sent, m.id, outcome.value);
      } else {
        RecoverIsReady(Record(sent, Result(m.id, None)), m.id, CallbackThrew);
      }
    }
  }

  lemma {:induction false} SendAllIsReady(b: Batch, mails: seq<Mail>)
    requires Ready(b) && !b.threw
    ensures Ready(SendAll(b, mails))
  {
    if mails != [] {
      var n := |mails| - 1;
      SendAllIsReady(b, mails[..n]);
      var before := SendAll(b, mails[..n]);
      if !before.threw { SendOneIsReady(before, mails[n]); }
    }
  }

  /**
   * Whatever server, network and callback do, MAIL is only written when the session
   * is fresh from AUTH, right after an accepted message, or right after an accepted
   * RSET; and RCPT, DATA and the message only right after the acceptance each needs.
   */
  lemma TransactionsStartClean(w: World, mails: seq<Mail>, maxMessages: int)
    ensures Disciplined(SendBatch(w, mails, maxMessages).trace)
  {
    var (s, outcome) := Authenticated(w);
    ChainKeepsDiscipline(Session(true, w.script, []), AuthCommands(w.server));
    if outcome.Some? {
      AskKeepsDiscipline(s, Quit);
    } else {
      var b := Batch(s, [], w.throws, false);
      SendAllIsReady(b, Taken(mails, maxMessages));
      AskKeepsDiscipline(SendAll(b, Taken(mails, maxMessages)).session, Quit);
    }
  }

  // ── Results ──

  function Ids(results: seq<Result>): (ids: seq<string>)
    ensures |ids| == |results| && forall i :: 0 <= i < |ids| ==> ids[i] == results[i].id
  {
    seq(|results|, i requires 0 <= i < |results| => results[i].id)
  }

  function MailIds(mails: seq<Mail>): (ids: seq<string>)
    ensures |ids| == |mails| && forall i :: 0 <= i < |ids| ==> ids[i] == mails[i].id
  {
    seq(|mails|, i requires 0 <= i < |mails| => mails[i].id)
  }

  predicate NeverThrows(throws: seq<bool>) { forall i :: 0 <= i < |throws| ==> !throws[i] }

  lemma SendOneAddsOne(b: Batch, m: Mail)
    requires !b.threw && NeverThrows(b.throws)
    ensures var c := SendOne(b, m);
      !c.threw && NeverThrows(c.throws) && Ids(c.results) == Ids(b.results) + [m.id]
  {
  }

  lemma MailIdsLast(mails: seq<Mail>)
    requires |mails| > 0
    ensures MailIds(mails) == MailIds(mails[..|mails| - 1]) + [mails[|mails| - 1].id]
  {
  }

  lemma {:induction false} SendAllAddsAll(b: Batch, mails: seq<Mail>)
    requires !b.threw && NeverThrows(b.throws)
    ensures var c := SendAll(b, mails);
      !c.threw && NeverThrows(c.throws) && Ids(c.results) == Ids(b.results) + MailIds(mails)
  {
    if |mails| > 0 {
      var n := |mails| - 1;
      SendAllAddsAll(b, mails[..n]);
      SendOneAddsOne(SendAll(b, mails[..n]), mails[n]);
      MailIdsLast(mails);
      Associative(Ids(b.results), MailIds(mails[..n]), [mails[n].id]);
    }
  }

  /**
   * When the callback never throws, a call whose session was authenticated returns
   * one result for each mail it took, in order, for every pattern of failures,
   * timeouts and closed sockets.
   */
  lemma OneResultPerMail(w: World, mails: seq<Mail>, maxMessages: int)
    requires NeverThrows(w.throws) && w.connects && Authenticated(w).1.None?
    ensures var call := SendBatch(w, mails, maxMessages);
      call.returned && Ids(call.results) == MailIds(Taken(mails, maxMessages))
  {
    SendAllAddsAll(Batch(Authenticated(w).0, [], w.throws, false), Taken(mails, maxMessages));
  }

  /** The messages the server accepted, in order. */
  function AcceptedMails(trace: seq<Exchange>): seq<string> {
    if trace == [] then []
    else
      var x := trace[|trace| - 1];
      AcceptedMails(trace[..|trace| - 1]) + if x.command.Payload? && Accepted(x) then [x.command.id] else []
  }

  /** The mails reported as sent, in order. */
  function SentMails(results: seq<Result>): seq<string> {
    if results == [] then []
    else
      var r := results[|results| - 1];
      SentMails(results[..|results| - 1]) + if r.error.None? then [r.id] else []
  }

  lemma SentAppend(results: seq<Result>, r: Result)
    ensures SentMails(results + [r]) == SentMails(results) + if r.error.None? then [r.id] else []
  {
    assert (results + [r])[..|results|] == results;
  }

  /** The message a command leaves with the server. */
  function Left(c: Command, outcome: Outcome): seq<string> {
    if c.Payload? && outcome.None? then [c.id] else []
  }

  lemma AskAccepts(s: Session, c: Command)
    ensures Left(c, Ask(s, c).1) == [] ==> AcceptedMails(Ask(s, c).0.trace) == AcceptedMails(s.trace)
    ensures Left(c, Ask(s, c).1) != [] ==> AcceptedMails(Ask(s, c).0.trace) == AcceptedMails(s.trace) + [c.id]
  {
    var t := Ask(s, c).0;
    if t.trace != s.trace {
      assert t.trace[..|s.trace|] == s.trace;
    }
  }

  lemma {:induction false} AskAllAccepts(s: Session, commands: seq<Command>)
    requires |commands| > 0 && forall i :: 0 <= i < |commands| - 1 ==> !commands[i].Payload?
    ensures var (t, outcome) := AskAll(s, commands);
      AcceptedMails(t.trace) == AcceptedMails(s.trace) + Left(commands[|commands| - 1], outcome)
    decreases |commands|
  {
    AskAccepts(s, commands[0]);
    if |commands| == 1 {
      AskAllOne(s, commands);
    } else if Ask(s, commands[0]).1.None? {
      AskAllAccepts(Ask(s, commands[0]).0, commands[1..]);
    }
  }

  lemma AskAllOne(s: Session, commands: seq<Command>)
    requires |commands| == 1
    ensures AskAll(s, commands) == Ask(s, commands[0])
  {
    assert commands[1..] == [];
  }

  ghost predicate Honest(b: Batch) { SentMails(b.results) == AcceptedMails(b.session.trace) }

  lemma RecoverSendsNothing(b: Batch, id: string, error: Error)
    ensures SentMails(Recover(b, id, error).results) == SentMails(b.results)
    ensures AcceptedMails(Recover(b, id, error).session.trace) == AcceptedMails(b.session.trace)
  {
    SentAppend(b.results, Result(id, Some(error)));
    ResetAccepts(b.session);
  }

  lemma ResetAccepts(s: Session)
    ensures AcceptedMails(Ask(s, Rset).0.trace) == AcceptedMails(s.trace)
  {
    AskAccepts(s, Rset);
  }

  lemma SendOneIsHonest(b: Batch, m: Mail)
    requires Honest(b)
    ensures Honest(SendOne(b, m))
  {
    if !b.session.open {
      SentAppend(b.results, Result(m.id, Some(SocketClosed)));
    } else {
      AskAllAccepts(b.session, MailCommands(m));
      var (s, outcome) := AskAll(b.session, MailCommands(m));
      var sent := b.(session := s);
      if outcome.Some? {
        RecoverSendsNothing(sent, m.id, outcome.value);
      } else {
        SentAppend(b.results, Result(m.id, None));
        RecoverSendsNothing(Record(sent, Result(m.id, None)), m.id, CallbackThrew);
      }
    }
  }

  lemma {:induction false} SendAllIsHonest(b: Batch, mails: seq<Mail>)
    requires Honest(b)
    ensures Honest(SendAll(b, mails))
  {
    if mails != [] {
      var n := |mails| - 1;
      SendAllIsHonest(b, mails[..n]);
      var before := SendAll(b, mails[..n]);
      if !before.threw { SendOneIsHonest(before, mails[n]); }
    }
  }

  lemma AuthLeavesNothing(w: World)
    ensures AcceptedMails(Authenticated(w).0.trace) == []
  {
    AskAllAccepts(Session(true, w.script, []), AuthCommands(w.server));
  }

  lemma EndLeavesNothing(s: Session)
    ensures AcceptedMails(Ended(s).trace) == AcceptedMails(s.trace)
  {
    AskAccepts(s, Quit);
  }

  /**
   * The mails reported as sent are exactly those whose message the server accepted, in
   * that order, even if the callback throws.
   */
  lemma SentMeansAccepted(w: World, mails: seq<Mail>, maxMessages: int)
    ensures var call := SendBatch(w, mails, maxMessages);
      SentMails(call.results) == AcceptedMails(call.trace)
  {
    var (s, outcome) := Authenticated(w);
    AuthLeavesNothing(w);
    EndLeavesNothing(s);
    var b := Batch(s, [], w.throws, false);
    SendAllIsHonest(b, Taken(mails, maxMessages));
    EndLeavesNothing(SendAll(b, Taken(mails, maxMessages)).session);
  }

  /** Once the socket is closed nothing more is written, and every mail left is reported as such. */
  lemma {:induction false} ClosedSessionOnlyReports(b: Batch, mails: seq<Mail>)
    requires !b.session.open && !b.threw && NeverThrows(b.throws)
    ensures var c := SendAll(b, mails);
      && c.session == b.session
      && c.results == b.results + seq(|mails|, i requires 0 <= i < |mails| => Result(mails[i].id, Some(SocketClosed)))
  {
    if mails != [] {
      var n := |mails| - 1;
      ClosedSessionOnlyReports(b, mails[..n]);
      SendAllAddsAll(b, mails[..n]);
    }
  }

  // ── When the callback throws ──

  function Drop(throws: seq<bool>, n: nat): seq<bool> { if n <= |throws| then throws[n..] else [] }

  /** How many of the first `n` calls of the callback throw. */
  function Thrown(throws: seq<bool>, n: nat): nat {
    if n == 0 then 0 else Thrown(throws, n - 1) + if n <= |throws| && throws[n - 1] then 1 else 0
  }

  /** Each throw that does not leave the loop has added a result. */
  ghost predicate Counted(b: Batch, throws: seq<bool>, mails: nat) {
    var thrown := Thrown(throws, |b.results|);
    && b.throws == Drop(throws, |b.results|)
    && (if b.threw then thrown > 0 else |b.results| == mails + thrown)
  }

  lemma RecordCounts(b: Batch, r: Result, throws: seq<bool>)
    requires b.throws == Drop(throws, |b.results|)
    ensures var c := Record(b, r);
      && c.throws == Drop(throws, |c.results|)
      && Thrown(throws, |c.results|) == Thrown(throws, |b.results|) + if NextThrows(b) then 1 else 0
  {
  }

  lemma SendOneCounts(b: Batch, m: Mail, throws: seq<bool>, mails: nat)
    requires Counted(b, throws, mails) && !b.threw
    ensures Counted(SendOne(b, m), throws, mails + 1)
  {
    var (s, outcome) := AskAll(b.session, MailCommands(m));
    if !b.session.open {
      RecordCounts(b, Result(m.id, Some(SocketClosed)), throws);
    } else if outcome.Some? {
      RecordCounts(b.(session := s), Result(m.id, outcome), throws);
    } else {
      var c := Record(b.(session := s), Result(m.id, None));
      RecordCounts(b.(session := s), Result(m.id, None), throws);
      RecordCounts(c, Result(m.id, Some(CallbackThrew)), throws);
    }
  }

  lemma {:induction false} SendAllCounts(b: Batch, mails: seq<Mail>, throws: seq<bool>)
    requires b.results == [] && !b.threw && b.throws == throws
    ensures Counted(SendAll(b, mails), throws, |mails|)
  {
    if mails != [] {
      var n := |mails| - 1;
      SendAllCounts(b, mails[..n], throws);
      var before := SendAll(b, mails[..n]);
      if !before.threw { SendOneCounts(before, mails[n], throws, n); }
    }
  }

  lemma QuietSendOne(b: Batch, m: Mail)
    requires !b.threw && !NextThrows(b)
    ensures var c := SendOne(b, m);
      && !c.threw && Ids(c.results) == Ids(b.results) + [m.id]
      && c.throws == if b.throws == [] then [] else b.throws[1..]
  {
  }

  lemma QuietNext(throws: seq<bool>, b: Batch, n: nat)
    requires Thrown(throws, n + 1) == 0 && b.throws == Drop(throws, n)
    ensures !NextThrows(b) && (if b.throws == [] then [] else b.throws[1..]) == Drop(throws, n + 1)
  {
  }

  lemma {:induction false} QuietSendAll(b: Batch, mails: seq<Mail>)
    requires b.results == [] && !b.threw && Thrown(b.throws, |mails|) == 0
    ensures var c := SendAll(b, mails);
      !c.threw && Ids(c.results) == MailIds(mails) && c.throws == Drop(b.throws, |mails|)
  {
    if |mails| > 0 {
      var n := |mails| - 1;
      QuietSendAll(b, mails[..n]);
      QuietNext(b.throws, SendAll(b, mails[..n]), n);
      QuietSendOne(SendAll(b, mails[..n]), mails[n]);
      MailIdsLast(mails);
    }
  }

  /**
   * The call returns one result for each mail it took, in order, exactly when none of
   * the first so many calls of the callback throws: each throw either leaves the loop
   * or adds a result for a mail that has one.
   */
  lemma OneResultPerMailUnlessCallbackThrows(w: World, mails: seq<Mail>, maxMessages: int)
    requires w.connects && Authenticated(w).1.None?
    ensures var call, taken := SendBatch(w, mails, maxMessages), Taken(mails, maxMessages);
      call.returned && Ids(call.results) == MailIds(taken) <==> Thrown(w.throws, |taken|) == 0
  {
    var b, taken := Batch(Authenticated(w).0, [], w.throws, false), Taken(mails, maxMessages);
    SendAllCounts(b, taken, w.throws);
    if Thrown(w.throws, |taken|) == 0 { QuietSendAll(b, taken); }
    if Ids(SendBatch(w, mails, maxMessages).results) == MailIds(taken) {
      assert |SendBatch(w, mails, maxMessages).results| == |taken|;
    }
  }

  /** A callback that throws on a mail that was sent makes that mail count twice, as sent and as failed. */
  lemma ThrowingCallbackReportsTwice(b: Batch, m: Mail)
    requires b.session.open && AskAll(b.session, MailCommands(m)).1.None? && NextThrows(b)
    ensures var c := SendOne(b, m);
      Ids(c.results) == Ids(b.results) + [m.id, m.id]
  {
  }
}
