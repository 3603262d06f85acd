/**
 * Where the mails of a batch go, and what one that is refused does to the others
 * (sendSmtpMailBatch of src/utils/smtp-client.ts).
 */
module SmtpDeliveries {
  import opened Common
  import opened SmtpBatchModel
  import opened SmtpBatchProofs
  import S = SmtpSessions

  // ── Each message goes to its own recipient ──

  /** The exchange, when it is a message, was announced two exchanges before for the recipient of that mail. */
  ghost predicate IsAddressed(trace: seq<Exchange>, k: nat, mails: seq<Mail>)
    requires k < |trace|
  {
    trace[k].command.Payload? ==>
      k >= 2 && exists m :: m in mails && trace[k].command == Payload(m.id) && trace[k - 2].command == RcptTo(m.to)
  }

  ghost predicate Addressed(trace: seq<Exchange>, mails: seq<Mail>) {
    forall k: nat :: k < |trace| ==> IsAddressed(trace, k, mails)
  }

  lemma AskKeepsAddressed(s: Session, c: Command, mails: seq<Mail>)
    requires Addressed(s.trace, mails) && !c.Payload?
    ensures Addressed(Ask(s, c).0.trace, mails)
  {
    var t := Ask(s, c).0;
    forall k: nat | k < |t.trace| ensures IsAddressed(t.trace, k, mails) {
      if k < |s.trace| { assert IsAddressed(s.trace, k, mails); }
    }
  }

  lemma MailKeepsAddressed(s: Session, m: Mail, mails: seq<Mail>)
    requires s.open && Addressed(s.trace, mails) && m in mails
    ensures Addressed(AskAll(s, MailCommands(m)).0.trace, mails)
  {
    var x := S.AskAllWrites(s, MailCommands(m));
    var trace := s.trace + x;
    forall k: nat | k < |trace| ensures IsAddressed(trace, k, mails) {
      if k < |s.trace| {
        assert IsAddressed(s.trace, k, mails);
      } else {
        assert trace[k] == x[k - |s.trace|];
        if k == |s.trace| + 3 { assert trace[k - 2] == x[1]; }
      }
    }
  }

  lemma RecoverKeepsAddressed(b: Batch, id: string, error: Error, mails: seq<Mail>)
    requires Addressed(b.session.trace, mails)
    ensures Addressed(Recover(b, id, error).session.trace, mails)
  {
    AskKeepsAddressed(b.session, Rset, mails);
  }

  lemma SendOneKeepsAddressed(b: Batch, m: Mail, mails: seq<Mail>)
    requires Addressed(b.session.trace, mails) && m in mails
    ensures Addressed(SendOne(b, m).session.trace, mails)
  {
    if b.session.open {
      MailKeepsAddressed(b.session, m, mails);
      var (s, outcome) := AskAll(b.session, MailCommands(m));
      var sent := b.(session := s);
      if outcome.Some? {
        RecoverKeepsAddressed(sent, m.id, outcome.value, mails);
      } else {
        RecoverKeepsAddressed(Record(sent, Result(m.id, None)), m.id, CallbackThrew, mails);
      }
    }
  }

  lemma {:induction false} SendAllKeepsAddressed(b: Batch, mails: seq<Mail>, all: seq<Mail>)
    requires Addressed(b.session.trace, all) && forall m :: m in mails ==> m in all
    ensures Addressed(SendAll(b, mails).session.trace, all)
  {
    if |mails| > 0 {
      var n := |mails| - 1;
      SendAllKeepsAddressed(b, mails[..n], all);
      SendOneKeepsAddressed(SendAll(b, mails[..n]), mails[n], all);
    }
  }

  /** Whatever happens, a message is only written to the recipient of its own mail. */
  lemma MailsGoToTheirRecipients(w: World, mails: seq<Mail>, maxMessages: int)
    ensures Addressed(SendBatch(w, mails, maxMessages).trace, Taken(mails, maxMessages))
  {
    hide AskAll, SendAll;
    var batch, s := Taken(mails, maxMessages), Authenticated(w).0;
    S.OpeningWrites(w);
    var b := Batch(s, [], w.throws, false);
    SendAllKeepsAddressed(b, batch, batch);
    AskKeepsAddressed(s, Quit, batch);
    AskKeepsAddressed(SendAll(b, batch).session, Quit, batch);
  }

  // ── A refused mail stops no other ──

  /** How many transactions were begun. */
  function Begun(trace: seq<Exchange>): nat {
    if |trace| == 0 then 0 else Begun(trace[..|trace| - 1]) + if trace[|trace| - 1].command.MailFrom? then 1 else 0
  }

  lemma BegunAppend(trace: seq<Exchange>, x: Exchange)
    ensures Begun(trace + [x]) == Begun(trace) + if x.command.MailFrom? then 1 else 0
  {
    assert (trace + [x])[..|trace|] == trace;
  }

  /** RSET was written and not accepted. */
  ghost predicate ResetRefused(trace: seq<Exchange>) {
    exists k :: 0 <= k < |trace| && trace[k].command.Rset? && !Accepted(trace[k])
  }

  predicate EndsWithQuit(trace: seq<Exchange>) { trace != [] && trace[|trace| - 1].command.Quit? }

  /** The next `n` answers are there, and each is a code. */
  predicate Talks(s: Session, n: int) {
    s.open && |s.script| >= n && forall i :: 0 <= i < n ==> s.script[i].Code?
  }

  lemma AskTalks(s: Session, c: Command, n: int)
    requires n > 0 && Talks(s, n)
    ensures var t := Ask(s, c).0;
      && Talks(t, n - 1) && t.trace == s.trace + [Exchange(c, Some(s.script[0].code))]
      && Begun(t.trace) == Begun(s.trace) + if c.MailFrom? then 1 else 0
  {
    BegunAppend(s.trace, Exchange(c, Some(s.script[0].code)));
  }

  lemma {:induction false} AskAllTalks(s: Session, commands: seq<Command>, n: int)
    requires n >= |commands| && Talks(s, n) && forall i :: 0 <= i < |commands| ==> !commands[i].MailFrom?
    ensures var t := AskAll(s, commands).0; Talks(t, n - |commands|) && Begun(t.trace) == Begun(s.trace)
    decreases |commands|
  {
    if |commands| > 0 {
      AskTalks(s, commands[0], n);
      if Ask(s, commands[0]).1.None? { AskAllTalks(Ask(s, commands[0]).0, commands[1..], n - 1); }
    }
  }

  lemma MailTalks(s: Session, m: Mail, n: int)
    requires n >= 4 && Talks(s, n)
    ensures var t := AskAll(s, MailCommands(m)).0; Talks(t, n - 4) && Begun(t.trace) == Begun(s.trace) + 1
  {
    var commands := MailCommands(m);
    AskTalks(s, commands[0], n);
    if Ask(s, commands[0]).1.None? { AskAllTalks(Ask(s, commands[0]).0, commands[1..], n - 1); }
  }

  /** Each mail so far was begun, and the session still talks; or a RSET was refused. */
  ghost predicate GoesOn(b: Batch, mails: nat, n: int) {
    !b.threw && NeverThrows(b.throws) && n >= 0
    && (ResetRefused(b.session.trace) || (Talks(b.session, n) && Begun(b.session.trace) == mails))
  }

  lemma RefusedStays(before: seq<Exchange>, after: seq<Exchange>)
    requires before <= after && ResetRefused(before)
    ensures ResetRefused(after)
  {
    var k :| 0 <= k < |before| && before[k].command.Rset? && !Accepted(before[k]);
    assert after[k] == before[k];
  }

  lemma RecoverGoesOn(b: Batch, id: string, error: Error, mails: nat, n: int)
    requires n > 0 && !b.threw && NeverThrows(b.throws) && Talks(b.session, n) && Begun(b.session.trace) == mails
    ensures GoesOn(Recover(b, id, error), mails, n - 1)
  {
    AskTalks(b.session, Rset, n);
    var (s, outcome) := Ask(b.session, Rset);
    if outcome.Some? {
      assert s.trace[|b.session.trace|].command.Rset? && !Accepted(s.trace[|b.session.trace|]);
    }
  }

  lemma SendOneGoesOn(b: Batch, m: Mail, mails: nat, n: int)
    requires n >= 5 && GoesOn(b, mails, n)
    ensures GoesOn(SendOne(b, m), mails + 1, n - 5)
  {
    if ResetRefused(b.session.trace) {
      S.SendOneSince(b, m);
      RefusedStays(b.session.trace, SendOne(b, m).session.trace);
      SendOneAddsOne(b, m);
    } else {
      MailTalks(b.session, m, n);
      var (s, outcome) := AskAll(b.session, MailCommands(m));
      if outcome.Some? { RecoverGoesOn(b.(session := s), m.id, outcome.value, mails + 1, n - 4); }
    }
  }

  lemma {:induction false} SendAllGoesOn(b: Batch, mails: seq<Mail>, n: int)
    requires n >= 5 * |mails| && GoesOn(b, 0, n)
    ensures GoesOn(SendAll(b, mails), |mails|, n - 5 * |mails|)
  {
    if |mails| > 0 {
      var k := |mails| - 1;
      SendAllGoesOn(b, mails[..k], n);
      SendOneGoesOn(SendAll(b, mails[..k]), mails[k], k, n - 5 * k);
    }
  }

  /**
   * One refused mail stops no other: as long as the server keeps answering with codes and
   * accepts each RSET, every mail of the batch is begun, whichever commands it refuses, and
   * the session ends with QUIT.
   */
  lemma RefusedMailStopsNoOther(w: World, mails: seq<Mail>, maxMessages: int)
    requires w.connects && Authenticated(w).1.None? && NeverThrows(w.throws)
    requires Talks(Authenticated(w).0, 5 * |Taken(mails, maxMessages)| + 1)
    ensures var trace := SendBatch(w, mails, maxMessages).trace;
      || ResetRefused(trace)
      || (Begun(trace) == |Taken(mails, maxMessages)| && (mails != [] ==> EndsWithQuit(trace)))
  {
    hide AskAll, SendAll, Begun;
    var batch, s := Taken(mails, maxMessages), Authenticated(w).0;
    S.OpeningWrites(w);
    OpeningBeginsNothing([]);
    OpeningBeginsNothing(s.trace);
    if |batch| > 0 {
      var b := Batch(s, [], w.throws, false);
      SendAllGoesOn(b, batch, 5 * |batch| + 1);
      QuitGoesOn(SendAll(b, batch).session);
    }
  }

  lemma QuitGoesOn(s: Session)
    ensures ResetRefused(s.trace) ==> ResetRefused(Ended(s).trace)
    ensures Talks(s, 1) ==> Begun(Ended(s).trace) == Begun(s.trace) && EndsWithQuit(Ended(s).trace)
  {
    if ResetRefused(s.trace) {
      S.EndSince(s);
      RefusedStays(s.trace, Ended(s).trace);
    }
    if Talks(s, 1) { AskTalks(s, Quit, 1); }
  }

  lemma {:induction false} OpeningBeginsNothing(trace: seq<Exchange>)
    requires forall i :: 0 <= i < |trace| ==> !trace[i].command.MailFrom?
    ensures Begun(trace) == 0
  {
    if |trace| > 0 { OpeningBeginsNothing(trace[..|trace| - 1]); }
  }
}
