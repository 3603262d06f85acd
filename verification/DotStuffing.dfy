/**
 * Dot stuffing (dotStuff and the end of data() in src/utils/smtp-client.ts) and the
 * reader of section 4.5.2 of RFC 5321.
 */
module DotStuffing {
  import opened Common

  const CRLF := "\r\n"

  /** What a line starts after for the multi-line `^` of a regular expression. */
  predicate IsTerminator(c: char) {
    c == '\n' || c == '\r' || c == '\U{2028}' || c == '\U{2029}'
  }

  // ── The sender ──

  /** Every line feed, with the carriage return before it if there is one, becomes CRLF. */
  function Normalize(v: string): string {
    if v == "" then ""
    else if CRLF <= v then CRLF + Normalize(v[2..])
    else if v[0] == '\n' then CRLF + Normalize(v[1..])
    else [v[0]] + Normalize(v[1..])
  }

  /** A dot at the start of what `^` calls a line is doubled. */
  function Stuff(s: string, lineStart: bool): string {
    if s == "" then ""
    else if s[0] == '.' && lineStart then ".." + Stuff(s[1..], false)
    else [s[0]] + Stuff(s[1..], IsTerminator(s[0]))
  }

  function DotStuff(v: string): string { Stuff(Normalize(v), true) }

  /** What data() writes. */
  function Written(v: string): string { DotStuff(v) + CRLF + "." + CRLF }

  // ── The receiver ──

  /**
   * Reads lines that end with CRLF: one of a single dot ends the message, and any
   * other loses its leading dot. The message, and what follows it in the stream.
   */
  function Receive(s: string, lineStart: bool): Option<(string, string)> {
    if s == "" then None
    else if lineStart && "." + CRLF <= s then Some(("", s[3..]))
    else if lineStart && s[0] == '.' then Receive(s[1..], false)
    else if CRLF <= s then Prepend(CRLF, Receive(s[2..], true))
    else Prepend([s[0]], Receive(s[1..], false))
  }

  function Prepend(prefix: string, received: Option<(string, string)>): Option<(string, string)> {
    match received
    case None => None
    case Some((text, rest)) => Some((prefix + text, rest))
  }

  // ── What arrives ──

  /** Line feeds occur only in CRLF. */
  predicate Normalized(s: string) {
    s == "" || (CRLF <= s && Normalized(s[2..])) || (s[0] != '\n' && !(CRLF <= s) && Normalized(s[1..]))
  }

  lemma {:induction false} NormalizeNormalizes(v: string)
    ensures Normalized(Normalize(v))
    ensures v != "" && v[0] != '\n' ==> Normalize(v) != "" && Normalize(v)[0] == v[0]
    ensures Normalize(v) == "" || Normalize(v)[0] != '\n'
  {
    if v == "" {
    } else if CRLF <= v {
      NormalizeNormalizes(v[2..]);
      assert (CRLF + Normalize(v[2..]))[2..] == Normalize(v[2..]);
    } else if v[0] == '\n' {
      NormalizeNormalizes(v[1..]);
      assert (CRLF + Normalize(v[1..]))[2..] == Normalize(v[1..]);
    } else {
      NormalizeNormalizes(v[1..]);
      assert ([v[0]] + Normalize(v[1..]))[1..] == Normalize(v[1..]);
    }
  }

  /**
   * What the receiver gets of a normalized text: `lineStart` as the sender sees it,
   * `line` as the receiver does. Where only the sender sees a line, the dot stays double.
   */
  function Arrived(s: string, lineStart: bool, line: bool): string {
    if s == "" then ""
    else if CRLF <= s then CRLF + Arrived(s[2..], true, true)
    else if s[0] == '.' && lineStart && !line then ".." + Arrived(s[1..], false, false)
    else [s[0]] + Arrived(s[1..], IsTerminator(s[0]), false)
  }

  /** The end of the stream as data() writes it, and what follows. */
  function End(rest: string): string { CRLF + "." + CRLF + rest }

  lemma EndArrives(rest: string, line: bool)
    ensures Receive(End(rest), line) == Some((CRLF, rest))
  {
    var end := End(rest);
    assert end[2..] == "." + CRLF + rest && end[2..][3..] == rest;
    assert Receive(end[2..], true) == Some(("", rest));
    assert CRLF + "" == CRLF;
  }

  /** A character that neither ends a line nor is stuffed arrives as it is. */
  lemma CharArrives(c: char, tail: string, line: bool, text: string, rest: string)
    requires Receive(tail, false) == Some((text, rest))
    requires !(CRLF <= [c] + tail) && !(c == '.' && line)
    ensures Receive([c] + tail, line) == Some(([c] + text, rest))
  {
    assert ([c] + tail)[1..] == tail;
  }

  lemma LineArrives(tail: string, line: bool, text: string, rest: string)
    requires Receive(tail, true) == Some((text, rest))
    ensures Receive(CRLF + tail, line) == Some((CRLF + text, rest))
  {
    assert (CRLF + tail)[2..] == tail;
  }

  /** Of two dots a receiver at the start of a line drops one; elsewhere both arrive. */
  lemma TwoDotsArrive(tail: string, line: bool, text: string, rest: string)
    requires Receive(tail, false) == Some((text, rest))
    ensures Receive(".." + tail, line) == Some(((if line then "." else "..") + text, rest))
  {
    var stream := ".." + tail;
    assert stream[1..] == "." + tail;
    CharArrives('.', tail, false, text, rest);
    if !line {
      CharArrives('.', "." + tail, false, "." + text, rest);
      assert ['.'] + ("." + tail) == stream && ['.'] + ("." + text) == ".." + text;
    }
  }

  lemma {:induction false} ReceiveStuffed(s: string, lineStart: bool, line: bool, rest: string)
    requires Normalized(s) && (line ==> lineStart)
    ensures Receive(Stuff(s, lineStart) + End(rest), line) == Some((Arrived(s, lineStart, line) + CRLF, rest))
    decreases |s|
  {
    if s == "" {
      EndArrives(rest, line);
      assert "" + End(rest) == End(rest) && "" + CRLF == CRLF;
    } else if CRLF <= s {
      ReceiveStuffed(s[2..], true, true, rest);
      StuffLine(s, lineStart);
      Line(Stuff(s[2..], true), End(rest), line, Arrived(s[2..], true, true), rest);
    } else if s[0] == '.' && lineStart {
      ReceiveStuffed(s[1..], false, false, rest);
      Dots(Stuff(s[1..], false), End(rest), line, Arrived(s[1..], false, false), rest);
    } else {
      var next := IsTerminator(s[0]);
      ReceiveStuffed(s[1..], next, false, rest);
      FirstStaysFirst(s[1..], next);
      Char(s[0], Stuff(s[1..], next), End(rest), line, Arrived(s[1..], next, false), rest);
    }
  }

  lemma StuffLine(s: string, lineStart: bool)
    requires CRLF <= s
    ensures Stuff(s, lineStart) == CRLF + Stuff(s[2..], true)
  {
    assert s[1..][1..] == s[2..] && s[1..][0] == '\n';
  }

  lemma Line(stuffed: string, end: string, line: bool, text: string, rest: string)
    requires Receive(stuffed + end, true) == Some((text + CRLF, rest))
    ensures Receive(CRLF + stuffed + end, line) == Some((CRLF + text + CRLF, rest))
  {
    LineArrives(stuffed + end, line, text + CRLF, rest);
    assert CRLF + (stuffed + end) == CRLF + stuffed + end && CRLF + (text + CRLF) == CRLF + text + CRLF;
  }

  lemma Dots(stuffed: string, end: string, line: bool, text: string, rest: string)
    requires Receive(stuffed + end, false) == Some((text + CRLF, rest))
    ensures Receive(".." + stuffed + end, line) == Some(((if line then "." else "..") + text + CRLF, rest))
  {
    TwoDotsArrive(stuffed + end, line, text + CRLF, rest);
    assert ".." + (stuffed + end) == ".." + stuffed + end;
    assert (if line then "." else "..") + (text + CRLF) == (if line then "." else "..") + text + CRLF;
  }

  lemma NoLineEnd(c: char, tail: string)
    requires tail != "" && !(c == '\r' && tail[0] == '\n')
    ensures !(CRLF <= [c] + tail)
  {
    var s := [c] + tail;
    assert CRLF[0] == '\r' && CRLF[1] == '\n' && s[0] == c && s[1] == tail[0];
  }

  lemma Char(c: char, stuffed: string, end: string, line: bool, text: string, rest: string)
    requires Receive(stuffed + end, false) == Some((text + CRLF, rest))
    requires end != "" && end[0] == '\r' && !(c == '\r' && stuffed != "" && stuffed[0] == '\n') && !(c == '.' && line)
    ensures Receive([c] + stuffed + end, line) == Some(([c] + text + CRLF, rest))
  {
    NoLineEnd(c, stuffed + end);
    CharArrives(c, stuffed + end, line, text + CRLF, rest);
    assert [c] + (stuffed + end) == [c] + stuffed + end && [c] + (text + CRLF) == [c] + text + CRLF;
  }

  lemma FirstStaysFirst(s: string, lineStart: bool)
    ensures Stuff(s, lineStart) == "" <==> s == ""
    ensures s != "" ==> Stuff(s, lineStart)[0] == s[0]
  {
  }

  lemma EndOfWritten(stuffed: string, rest: string)
    ensures stuffed + CRLF + "." + CRLF + rest == stuffed + End(rest)
  {
  }

  /**
   * Whatever the text and whatever follows, the receiver stops exactly at the end
   * that data() wrote, and gets the normalized text, but for dots that stay double.
   */
  lemma NeverEndsEarly(v: string, rest: string)
    ensures Receive(Written(v) + rest, true) == Some((Arrived(Normalize(v), true, true) + CRLF, rest))
  {
    NormalizeNormalizes(v);
    ReceiveStuffed(Normalize(v), true, true, rest);
    EndOfWritten(DotStuff(v), rest);
  }

  // ── When the text arrives as it is ──

  /** A dot comes right after a bare carriage return or a Unicode line or paragraph separator. */
  predicate HasFalseLine(v: string) {
    exists i :: 0 < i < |v| && v[i] == '.' && IsTerminator(v[i - 1]) && v[i - 1] != '\n'
  }

  /** The same of a text that continues one ending so, if `after`. */
  predicate FalseLineAfter(v: string, after: bool) {
    (after && v != "" && v[0] == '.') || HasFalseLine(v)
  }

  lemma FalseLineStep(v: string)
    requires v != ""
    ensures HasFalseLine(v) <==> FalseLineAfter(v[1..], IsTerminator(v[0]) && v[0] != '\n')
  {
    var rest := v[1..];
    if i :| 0 < i < |v| && v[i] == '.' && IsTerminator(v[i - 1]) && v[i - 1] != '\n' {
      if i > 1 { assert rest[i - 1] == '.' && rest[i - 2] == v[i - 1]; }
    }
    if i :| 0 < i < |rest| && rest[i] == '.' && IsTerminator(rest[i - 1]) && rest[i - 1] != '\n' {
      assert v[i + 1] == '.' && v[i] == rest[i - 1];
    }
    if rest != "" && rest[0] == '.' && IsTerminator(v[0]) && v[0] != '\n' { assert v[1] == '.'; }
  }

  lemma {:induction false} ArrivedLength(s: string, lineStart: bool, line: bool)
    ensures |Arrived(s, lineStart, line)| >= |s|
  {
    if s == "" {
    } else if CRLF <= s {
      ArrivedLength(s[2..], true, true);
    } else if s[0] == '.' && lineStart && !line {
      ArrivedLength(s[1..], false, false);
    } else {
      ArrivedLength(s[1..], IsTerminator(s[0]), false);
    }
  }

  lemma {:induction false} ArrivesUnchanged(s: string, lineStart: bool, line: bool)
    requires Normalized(s) && (line ==> lineStart)
    ensures Arrived(s, lineStart, line) == s <==> !FalseLineAfter(s, lineStart && !line)
  {
    if s == "" {
    } else if CRLF <= s {
      ArrivesUnchanged(s[2..], true, true);
      FalseLineStep(s);
      FalseLineStep(s[1..]);
      assert s[1..][1..] == s[2..] && s == CRLF + s[2..];
      SamePrefix(CRLF, Arrived(s[2..], true, true), s[2..]);
    } else if s[0] == '.' && lineStart && !line {
      ArrivedLength(s[1..], false, false);
      assert |Arrived(s, lineStart, line)| > |s|;
    } else {
      ArrivesUnchanged(s[1..], IsTerminator(s[0]), false);
      FalseLineStep(s);
      assert s == [s[0]] + s[1..];
      SamePrefix([s[0]], Arrived(s[1..], IsTerminator(s[0]), false), s[1..]);
    }
  }

  lemma SamePrefix(p: string, a: string, b: string)
    ensures p + a == p + b <==> a == b
  {
    assert (p + a)[|p|..] == a && (p + b)[|p|..] == b;
  }

  /** Normalizing moves no dot behind another character. */
  lemma {:induction false} NormalizeKeepsFalseLines(v: string, after: bool)
    ensures FalseLineAfter(Normalize(v), after) <==> FalseLineAfter(v, after)
  {
    if v == "" {
    } else if CRLF <= v {
      var tail := Normalize(v[2..]);
      NormalizeKeepsFalseLines(v[2..], false);
      FalseLineStep(v);
      FalseLineStep(v[1..]);
      assert v[1..][1..] == v[2..];
      FalseLineStep(CRLF + tail);
      FalseLineStep("\n" + tail);
      assert (CRLF + tail)[1..] == "\n" + tail && ("\n" + tail)[1..] == tail;
    } else if v[0] == '\n' {
      var tail := Normalize(v[1..]);
      NormalizeKeepsFalseLines(v[1..], false);
      FalseLineStep(v);
      FalseLineStep(CRLF + tail);
      FalseLineStep("\n" + tail);
      assert (CRLF + tail)[1..] == "\n" + tail && ("\n" + tail)[1..] == tail;
    } else {
      var tail := Normalize(v[1..]);
      NormalizeKeepsFalseLines(v[1..], IsTerminator(v[0]));
      FalseLineStep(v);
      FalseLineStep([v[0]] + tail);
      assert ([v[0]] + tail)[1..] == tail;
    }
  }

  /**
   * The receiver recovers exactly the lines of the text, each ended by CRLF, if and
   * only if no dot of the text comes right after a bare carriage return, U+2028 or U+2029.
   */
  lemma ReceiverUndoesDotStuffing(v: string, rest: string)
    ensures Receive(Written(v) + rest, true) == Some((Normalize(v) + CRLF, rest)) <==> !HasFalseLine(v)
  {
    NeverEndsEarly(v, rest);
    NormalizeNormalizes(v);
    ArrivesUnchanged(Normalize(v), true, true);
    NormalizeKeepsFalseLines(v, false);
    var arrived := Arrived(Normalize(v), true, true);
    assert (arrived + CRLF)[..|arrived|] == arrived;
    assert (Normalize(v) + CRLF)[..|Normalize(v)|] == Normalize(v);
  }
}
