/**
 * The session object and the loop of sendSmtpMailBatch, updating socket and
 * results in place (src/utils/smtp-client.ts).
 */
module SmtpClient {
  import opened Common
  import M = SmtpBatchModel

  class SmtpSession {
    var open: bool
    /** What server and network will do, and what was written so far. */
    var script: seq<M.Answer>
    var trace: seq<M.Exchange>

    constructor (script: seq<M.Answer>)
      ensures State() == M.Session(true, script, [])
    {
      open, this.script, trace := true, script, [];
    }

    function State(): M.Session
      reads this
    {
      M.Session(open, script, trace)
    }

    method Destroy()
      modifies this`open
      ensures State() == M.Destroyed(old(State()))
    {
      open := false;
    }

    /** command, and the bare waits for the greeting and the handshake: write, then read one answer. */
    method Ask(c: M.Command) returns (outcome: M.Outcome)
      modifies this
      ensures (State(), outcome) == M.Ask(old(State()), c)
    {
      if !open {
        return Some(M.SocketClosed);
      }
      var answer := M.Broken;
      if script != [] {
        answer, script := script[0], script[1..];
      }
      match answer
      case Closed =>
        open := false;
        return Some(M.SocketClosed);
      case Broken =>
        trace := trace + [M.Exchange(c, None)];
        open := false;
        return Some(M.Failed);
      case Code(code) =>
        trace := trace + [M.Exchange(c, Some(code))];
        return if M.Accepts(c, code) then None else Some(M.Unexpected(code));
    }

    method AskAll(commands: seq<M.Command>) returns (outcome: M.Outcome)
      modifies this
      ensures (State(), outcome) == M.AskAll(old(State()), commands)
    {
      outcome := None;
      var i := 0;
      assert commands[0..] == commands;
      while i < |commands| && outcome == None
        invariant 0 <= i <= |commands|
        invariant M.AskAll(old(State()), commands)
          == if outcome.Some? then (State(), outcome) else M.AskAll(State(), commands[i..])
      {
        assert commands[i..][1..] == commands[i + 1..];
        outcome := Ask(commands[i]);
        i := i + 1;
      }
    }

    method Authenticate(server: M.Server) returns (outcome: M.Outcome)
      modifies this
      ensures (State(), outcome) == M.AskAll(old(State()), M.AuthCommands(server))
    {
      outcome := AskAll(M.AuthCommands(server));
    }

    method SendMail(mail: M.Mail) returns (outcome: M.Outcome)
      modifies this
      ensures (State(), outcome) == M.AskAll(old(State()), M.MailCommands(mail))
    {
      outcome := AskAll(M.MailCommands(mail));
    }

    method Close()
      modifies this
      ensures State() == M.Ended(old(State()))
    {
      if !open {
        return;
      }
      var _ := Ask(M.Quit);
      open := false;
    }
  }

  /** The results of a call, and the callback they go to: a script of which of its calls throw. */
  class Recorder {
    var results: seq<M.Result>
    var throws: seq<bool>

    constructor (throws: seq<bool>)
      ensures results == [] && this.throws == throws
    {
      results, this.throws := [], throws;
    }

    /** recordResult: the result is kept even when the callback throws. */
    method Record(r: M.Result) returns (threw: bool)
      modifies this
      ensures results == old(results) + [r] && threw == (old(throws) != [] && old(throws)[0])
      ensures throws == if old(throws) == [] then [] else old(throws)[1..]
    {
      results := results + [r];
      threw := throws != [] && throws[0];
      if throws != [] {
        throws := throws[1..];
      }
    }
  }

  function State(session: SmtpSession, recorder: Recorder, threw: bool): M.Batch
    reads session, recorder
  {
    M.Batch(session.State(), recorder.results, recorder.throws, threw)
  }

  /** The catch block of the loop. */
  method Recover(session: SmtpSession, recorder: Recorder, id: string, error: M.Error) returns (threw: bool)
    modifies session, recorder
    ensures State(session, recorder, threw) == M.Recover(old(State(session, recorder, false)), id, error)
  {
    threw := recorder.Record(M.Result(id, Some(error)));
    if threw || !session.open {
      return;
    }
    var reset := session.Ask(M.Rset);
    if reset != None {
      session.Destroy();
    }
  }

  /** One turn of the loop; `threw` says that an exception leaves it. */
  method SendOne(session: SmtpSession, recorder: Recorder, mail: M.Mail) returns (threw: bool)
    modifies session, recorder
    ensures State(session, recorder, threw) == M.SendOne(old(State(session, recorder, false)), mail)
  {
    if !session.open {
      threw := recorder.Record(M.Result(mail.id, Some(M.SocketClosed)));
      return;
    }
    var outcome := session.SendMail(mail);
    if outcome == None {
      threw := recorder.Record(M.Result(mail.id, None));
      if !threw {
        return;
      }
      outcome := Some(M.CallbackThrew);
    }
    threw := Recover(session, recorder, mail.id, outcome.value);
  }

  method SendSmtpMailBatch(w: M.World, mails: seq<M.Mail>, maxMessages: int) returns (call: M.Call)
    ensures call == M.SendBatch(w, mails, maxMessages)
  {
    var batch := M.Taken(mails, maxMessages);
    if |batch| == 0 {
      return M.Call([], true, []);
    }
    if !w.connects {
      return M.Call([], false, []);
    }
    var recorder := new Recorder(w.throws);
    var session := new SmtpSession(w.script);
    var auth := session.Authenticate(w.server);
    var threw := auth != None;
    if !threw {
      ghost var start := State(session, recorder, false);
      var i := 0;
      while i < |batch| && !threw
        invariant 0 <= i <= |batch|
        invariant State(session, recorder, threw) == M.SendAll(start, batch[..i])
      {
        assert batch[..i + 1][..i] == batch[..i];
        threw := SendOne(session, recorder, batch[i]);
        i := i + 1;
      }
      assert batch[..|batch|] == batch;
      if threw { StopsAtThrow(start, batch, i); }
    }
    session.Close();
    call := M.Call(recorder.results, !threw, session.trace);
  }

  /** An exception ends the loop: the mails left over change nothing. */
  lemma {:induction false} StopsAtThrow(b: M.Batch, mails: seq<M.Mail>, i: nat)
    requires i <= |mails| && M.SendAll(b, mails[..i]).threw
    ensures M.SendAll(b, mails) == M.SendAll(b, mails[..i])
  {
    if i == |mails| {
      assert mails[..i] == mails;
    } else {
      var n := |mails| - 1;
      assert mails[..n][..i] == mails[..i];
      StopsAtThrow(b, mails[..n], i);
      assert M.SendAll(b, mails) == M.SendAll(b, mails[..n]);
    }
  }
}
