/**
 * What a whole session writes and in which order, from the greeting to QUIT
 * (authenticateSmtpSession and sendSmtpMailBatch of src/utils/smtp-client.ts): user
 * name, password and mails only after STARTTLS where the server asks for it
 * (section 4 of RFC 3207).
 */
module SmtpSessions {
  import opened Common
  import opened SmtpBatchModel

  /** A command of the part of a session that comes before the first mail. */
  predicate OfOpening(c: Command) {
    c.Greeting? || c.Ehlo? || c.StartTls? || c.Handshake? || c.Auth?
  }

  // ── The exchanges of one list of commands ──

  /** The exchanges are those of the commands, each but the last one accepted. */
  ghost predicate Follows(exchanges: seq<Exchange>, commands: seq<Command>) {
    && |exchanges| <= |commands|
    && (forall i :: 0 <= i < |exchanges| ==> exchanges[i].command == commands[i])
    && (forall i :: 0 <= i < |exchanges| - 1 ==> Accepted(exchanges[i]))
  }

  ghost predicate AllAccepted(exchanges: seq<Exchange>) {
    forall i :: 0 <= i < |exchanges| ==> Accepted(exchanges[i])
  }

  /** What one command leaves in the trace. */
  function Written(s: Session, c: Command): seq<Exchange> {
    if !s.open || (s.script != [] && s.script[0].Closed?) then []
    else if s.script == [] || s.script[0].Broken? then [Exchange(c, None)]
    else [Exchange(c, Some(s.script[0].code))]
  }

  lemma AskWrites(s: Session, c: Command)
    ensures var (t, outcome) := Ask(s, c); var x := Written(s, c);
      && t.trace == s.trace + x
      && (outcome.None? ==> |x| == 1 && Accepted(x[0]))
      && (outcome.Some? && t.open && s.open ==> |x| == 1 && !Accepted(x[0]))
  {
  }

  lemma FirstFollows(x: seq<Exchange>, rest: seq<Exchange>, commands: seq<Command>)
    requires |commands| > 0 && |x| == 1 && x[0].command == commands[0] && Accepted(x[0]) && Follows(rest, commands[1..])
    ensures Follows(x + rest, commands) && (AllAccepted(rest) ==> AllAccepted(x + rest))
  {
    var all := x + rest;
    forall i | 0 < i < |all| ensures all[i] == rest[i - 1] && commands[i] == commands[1..][i - 1] { }
  }

  /** How a list of commands ended: all accepted, or the last one written was not. */
  ghost predicate EndsAs(exchanges: seq<Exchange>, commands: seq<Command>, outcome: Outcome, open: bool) {
    && (outcome.None? ==> |exchanges| == |commands| && AllAccepted(exchanges))
    && (outcome.Some? && open ==> exchanges != [] && !Accepted(exchanges[|exchanges| - 1]))
    && (outcome.Some? && |exchanges| == |commands| ==> !AllAccepted(exchanges))
  }

  lemma {:induction false} AskAllWrites(s: Session, commands: seq<Command>) returns (exchanges: seq<Exchange>)
    requires s.open
    ensures AskAll(s, commands).0.trace == s.trace + exchanges && Follows(exchanges, commands)
    ensures EndsAs(exchanges, commands, AskAll(s, commands).1, AskAll(s, commands).0.open)
    decreases |commands|
  {
    if |commands| == 0 {
      exchanges := [];
    } else {
      var (t, outcome) := Ask(s, commands[0]);
      var first := Written(s, commands[0]);
      AskWrites(s, commands[0]);
      if outcome.Some? {
        exchanges := first;
      } else {
        var rest := AskAllWrites(t, commands[1..]);
        FirstFollows(first, rest, commands);
        exchanges := first + rest;
        Associative(s.trace, first, rest);
      }
    }
  }

  lemma OpeningOnly(server: Server)
    ensures forall i :: 0 <= i < |AuthCommands(server)| ==> OfOpening(AuthCommands(server)[i])
  {
  }

  /** All that is written until the session is opened, or given up. */
  lemma OpeningWrites(w: World)
    ensures var trace := Authenticated(w).0.trace;
      forall i :: 0 <= i < |trace| ==> OfOpening(trace[i].command)
  {
    OpeningOnly(w.server);
    hide AskAll, AuthCommands, OfOpening;
    var exchanges := AskAllWrites(Session(true, w.script, []), AuthCommands(w.server));
    assert [] + exchanges == exchanges;
  }

  // ── After the opening ──

  /** Since `before` nothing of an opening was written. */
  ghost predicate OnlyMailsSince(before: seq<Exchange>, after: seq<Exchange>) {
    && before <= after
    && forall k :: |before| <= k < |after| ==> !OfOpening(after[k].command)
  }

  lemma SinceIsTransitive(a: seq<Exchange>, b: seq<Exchange>, c: seq<Exchange>)
    requires OnlyMailsSince(a, b) && OnlyMailsSince(b, c)
    ensures OnlyMailsSince(a, c)
  {
    assert forall k :: |a| <= k < |b| ==> c[k] == b[k];
  }

  lemma AskSince(s: Session, c: Command)
    requires !OfOpening(c)
    ensures OnlyMailsSince(s.trace, Ask(s, c).0.trace)
  {
  }

  lemma AppendSince(trace: seq<Exchange>, more: seq<Exchange>)
    requires forall i :: 0 <= i < |more| ==> !OfOpening(more[i].command)
    ensures OnlyMailsSince(trace, trace + more)
  {
    assert forall k :: |trace| <= k < |trace + more| ==> (trace + more)[k] == more[k - |trace|];
  }

  lemma MailSince(s: Session, m: Mail)
    requires s.open
    ensures OnlyMailsSince(s.trace, AskAll(s, MailCommands(m)).0.trace)
  {
    hide AskAll;
    var exchanges := AskAllWrites(s, MailCommands(m));
    AppendSince(s.trace, exchanges);
  }

  lemma RecoverSince(b: Batch, id: string, error: Error)
    ensures OnlyMailsSince(b.session.trace, Recover(b, id, error).session.trace)
  {
    AskSince(b.session, Rset);
  }

  lemma SendOneSince(b: Batch, m: Mail)
    ensures OnlyMailsSince(b.session.trace, SendOne(b, m).session.trace)
  {
    if b.session.open {
      MailSince(b.session, m);
      var (s, outcome) := AskAll(b.session, MailCommands(m));
      var sent := b.(session := s);
      var next := if outcome.Some? then Recover(sent, m.id, outcome.value)
                  else Recover(Record(sent, Result(m.id, None)), m.id, CallbackThrew);
      RecoverSince(sent, m.id, if outcome.Some? then outcome.value else CallbackThrew);
      RecoverSince(Record(sent, Result(m.id, None)), m.id, CallbackThrew);
      SinceIsTransitive(b.session.trace, s.trace, next.session.trace);
    }
  }

  lemma {:induction false} SendAllSince(b: Batch, mails: seq<Mail>)
    ensures OnlyMailsSince(b.session.trace, SendAll(b, mails).session.trace)
  {
    if |mails| > 0 {
      var n := |mails| - 1;
      SendAllSince(b, mails[..n]);
      var before := SendAll(b, mails[..n]);
      if !before.threw {
        SendOneSince(before, mails[n]);
        SinceIsTransitive(b.session.trace, before.session.trace, SendOne(before, mails[n]).session.trace);
      }
    }
  }

  lemma EndSince(s: Session)
    ensures OnlyMailsSince(s.trace, Ended(s).trace)
  {
    AskSince(s, Quit);
  }

  // ── The whole session ──

  /**
   * A session that is not over with its opening wrote all of it, each command accepted, and nothing
   * of it later; one that is wrote a first part of it, and at most QUIT after the command
   * that was refused.
   */
  ghost predicate Opens(trace: seq<Exchange>, opening: seq<Command>) {
    if |trace| >= |opening| && AllAccepted(trace[..|opening|]) then
      Follows(trace[..|opening|], opening) && forall k :: |opening| <= k < |trace| ==> !OfOpening(trace[k].command)
    else
      || Follows(trace, opening)
      || (|trace| > 1 && trace[|trace| - 1].command.Quit? && !Accepted(trace[|trace| - 2])
          && Follows(trace[..|trace| - 1], opening))
  }

  lemma FullOpening(opening: seq<Command>, trace: seq<Exchange>, after: seq<Exchange>)
    requires |trace| == |opening| && Follows(trace, opening) && AllAccepted(trace) && OnlyMailsSince(trace, after)
    ensures Opens(after, opening) && |after| >= |opening| && AllAccepted(after[..|opening|])
  {
    assert after[..|opening|] == trace;
  }

  lemma FailedOpening(opening: seq<Command>, s: Session)
    requires Follows(s.trace, opening) && (|s.trace| == |opening| ==> !AllAccepted(s.trace))
    requires s.open ==> s.trace != [] && !Accepted(s.trace[|s.trace| - 1])
    ensures Opens(Ended(s).trace, opening)
    ensures |Ended(s).trace| >= |opening| ==> !AllAccepted(Ended(s).trace[..|opening|])
  {
    var after := Ended(s).trace;
    if s.open && after != s.trace {
      var n := |s.trace| - 1;
      assert after[..|after| - 1] == s.trace;
      if |after| >= |opening| { assert after[..|opening|][n] == s.trace[n]; }
    } else if |after| >= |opening| {
      assert after[..|opening|] == s.trace;
    }
  }

  /** Every call opens its session before anything else, and only an opened one has results. */
  lemma CallOpens(w: World, mails: seq<Mail>, maxMessages: int)
    ensures var call, opening := SendBatch(w, mails, maxMessages), AuthCommands(w.server);
      && Opens(call.trace, opening)
      && (call.results != [] ==> |call.trace| >= |opening| && AllAccepted(call.trace[..|opening|]))
  {
    var opening, batch := AuthCommands(w.server), Taken(mails, maxMessages);
    var (s, outcome) := Authenticated(w);
    var exchanges := AskAllWrites(Session(true, w.script, []), opening);
    assert s.trace == exchanges;
    if batch != [] && w.connects {
      if outcome.Some? {
        FailedOpening(opening, s);
      } else {
        var t := SendAll(Batch(s, [], w.throws, false), batch).session;
        SendAllSince(Batch(s, [], w.throws, false), batch);
        EndSince(t);
        SinceIsTransitive(s.trace, t.trace, Ended(t).trace);
        FullOpening(opening, s.trace, Ended(t).trace);
      }
    }
  }

  predicate Got(x: Exchange, c: Command) { x.command == c && Accepted(x) }

  /** STARTTLS was accepted, then the handshake, and the server was greeted again under TLS. */
  ghost predicate Upgraded(trace: seq<Exchange>) {
    exists a, b, c :: 0 <= a < b < c < |trace|
                      && Got(trace[a], StartTls) && Got(trace[b], Handshake) && Got(trace[c], Ehlo)
  }

  ghost predicate LoggedIn(trace: seq<Exchange>) {
    exists a :: 0 <= a < |trace| && Got(trace[a], Auth)
  }

  /** The command carries a mail or its envelope. */
  predicate OfMail(c: Command) { c.MailFrom? || c.RcptTo? || c.Data? || c.Payload? }

  /** The opening of a server that has to be upgraded ends in the sixth exchange, and no other is AUTH. */
  lemma UpgradedOpening(trace: seq<Exchange>, k: nat)
    requires Opens(trace, [Greeting, Ehlo, StartTls, Handshake, Ehlo, Auth])
    requires k < |trace| && (trace[k].command.Auth? || OfMail(trace[k].command))
    ensures Upgraded(trace[..k]) && (OfMail(trace[k].command) ==> LoggedIn(trace[..k]))
  {
    var opening := [Greeting, Ehlo, StartTls, Handshake, Ehlo, Auth];
    var front := trace[..k];
    if |trace| >= |opening| && AllAccepted(trace[..|opening|]) {
      assert forall i :: 0 <= i < 6 ==> trace[..6][i] == trace[i];
      assert k >= 5;
    } else if Follows(trace, opening) {
      assert k == 5;
    } else {
      assert forall i :: 0 <= i < |trace| - 1 ==> trace[..|trace| - 1][i] == trace[i];
      assert k == 5;
    }
    assert Got(front[2], StartTls) && Got(front[3], Handshake) && Got(front[4], Ehlo);
    if OfMail(trace[k].command) { assert Got(front[5], Auth); }
  }

  /** Without an upgrade the opening is greeting, EHLO and AUTH. */
  lemma PlainOpening(trace: seq<Exchange>, k: nat)
    requires Opens(trace, [Greeting, Ehlo, Auth]) && k < |trace|
    ensures !trace[k].command.StartTls? && !trace[k].command.Handshake?
    ensures OfMail(trace[k].command) ==> LoggedIn(trace[..k])
  {
    var opening := [Greeting, Ehlo, Auth];
    if |trace| >= |opening| && AllAccepted(trace[..|opening|]) {
      assert forall i :: 0 <= i < 3 ==> trace[..3][i] == trace[i];
      if OfMail(trace[k].command) { assert Got(trace[..k][2], Auth); }
    } else if !Follows(trace, opening) {
      assert forall i :: 0 <= i < |trace| - 1 ==> trace[..|trace| - 1][i] == trace[i];
    }
  }

  lemma FirstIsGreeting(trace: seq<Exchange>, opening: seq<Command>)
    requires Opens(trace, opening) && |opening| > 0 && trace != []
    ensures trace[0].command == opening[0]
  {
    if |trace| >= |opening| && AllAccepted(trace[..|opening|]) { assert trace[..|opening|][0] == trace[0]; }
  }

  /**
   * Whatever the server does: on any port but 25, unless the connection starts with TLS,
   * user name and password and everything of a mail are written only after STARTTLS and
   * the handshake were accepted and EHLO was repeated; otherwise neither of those is written. No
   * mail is begun before AUTH was accepted, and nothing is said before the greeting.
   */
  lemma NothingInClear(w: World, mails: seq<Mail>, maxMessages: int, k: nat)
    requires k < |SendBatch(w, mails, maxMessages).trace|
    ensures var trace := SendBatch(w, mails, maxMessages).trace;
      var c := trace[k].command;
      && (!w.server.secure && w.server.port != 25 && (c.Auth? || OfMail(c)) ==> Upgraded(trace[..k]))
      && (w.server.secure || w.server.port == 25 ==> !c.StartTls? && !c.Handshake?)
      && (OfMail(c) ==> LoggedIn(trace[..k]))
      && trace[0].command == Greeting
  {
    var trace := SendBatch(w, mails, maxMessages).trace;
    CallOpens(w, mails, maxMessages);
    FirstIsGreeting(trace, AuthCommands(w.server));
    if w.server.Upgrades() {
      assert AuthCommands(w.server) == [Greeting, Ehlo, StartTls, Handshake, Ehlo, Auth];
      if trace[k].command.Auth? || OfMail(trace[k].command) { UpgradedOpening(trace, k); }
    } else {
      assert AuthCommands(w.server) == [Greeting, Ehlo, Auth];
      PlainOpening(trace, k);
    }
  }

  /** A call with results logged in exactly once. */
  lemma LogsInOnce(w: World, mails: seq<Mail>, maxMessages: int)
    requires SendBatch(w, mails, maxMessages).results != []
    ensures var trace := SendBatch(w, mails, maxMessages).trace;
      exists k: nat :: k < |trace| && Got(trace[k], Auth)
        && forall j: nat :: j < |trace| && j != k ==> !trace[j].command.Auth?
  {
    var trace, opening := SendBatch(w, mails, maxMessages).trace, AuthCommands(w.server);
    CallOpens(w, mails, maxMessages);
    var k := |opening| - 1;
    assert forall i :: 0 <= i < |opening| ==> trace[..|opening|][i] == trace[i];
    assert Got(trace[k], Auth);
    assert forall j: nat :: j < k ==> !opening[j].Auth?;
  }
}
