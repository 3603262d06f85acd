/**
 * The lines of the headers that hold encoded-words (buildMimeMessage and
 * formatAddress of src/utils/smtp-client.ts), and when one is longer than the 76
 * characters of section 2 of RFC 2047.
 */
module MimeHeaders {
  import opened Utf8Base64
  import opened MimeWords

  const MAX_LINE := 76

  /** One word a line: the first after the header's name, the last before what follows the words. */
  function Lines(field: string, words: seq<string>, rest: string): seq<string>
    requires |words| > 0
    decreases |words|
  {
    if |words| == 1 then [field + words[0] + rest] else [field + words[0]] + Lines(" ", words[1..], rest)
  }

  function JoinLines(lines: seq<string>): string {
    if lines == [] then ""
    else if |lines| == 1 then lines[0]
    else lines[0] + "\r\n" + JoinLines(lines[1..])
  }

  lemma OneLineMore(line: string, lines: seq<string>)
    requires |lines| > 0
    ensures JoinLines([line] + lines) == line + "\r\n" + JoinLines(lines)
  {
    assert ([line] + lines)[1..] == lines;
  }

  /** Those lines are the header. */
  lemma {:induction false} LinesMakeHeader(field: string, words: seq<string>, rest: string)
    requires |words| > 0
    ensures |Lines(field, words, rest)| == |words|
    ensures JoinLines(Lines(field, words, rest)) == field + Join(words) + rest
    decreases |words|
  {
    if |words| > 1 {
      var tail := Join(words[1..]);
      LinesMakeHeader(" ", words[1..], rest);
      OneLineMore(field + words[0], Lines(" ", words[1..], rest));
      assert Join(words) == words[0] + SEPARATOR + tail;
      Spliced(field, words[0], tail, rest);
    }
  }

  lemma Spliced(field: string, word: string, tail: string, rest: string)
    ensures (field + word) + "\r\n" + (" " + tail + rest) == field + (word + SEPARATOR + tail) + rest
  {
  }

  predicate Overruns(lines: seq<string>) {
    exists i :: 0 <= i < |lines| && |lines[i]| > MAX_LINE
  }

  /** Only the line with the header's name and the one with what follows the words can be too long. */
  lemma {:induction false} FirstOrLastOverruns(field: string, words: seq<string>, rest: string)
    requires |words| > 0 && forall i :: 0 <= i < |words| ==> |words[i]| < MAX_LINE
    ensures Overruns(Lines(field, words, rest)) <==>
            if |words| == 1 then |field| + |words[0]| + |rest| > MAX_LINE
            else |field| + |words[0]| > MAX_LINE || 1 + |words[|words| - 1]| + |rest| > MAX_LINE
    decreases |words|
  {
    if |words| == 1 {
      assert Lines(field, words, rest)[0] == field + words[0] + rest;
    } else {
      FirstOrLastOverruns(" ", words[1..], rest);
      FirstOverruns(field + words[0], Lines(" ", words[1..], rest));
    }
  }

  lemma FirstOverruns(line: string, lines: seq<string>)
    ensures Overruns([line] + lines) <==> |line| > MAX_LINE || Overruns(lines)
  {
    var all := [line] + lines;
    if |line| > MAX_LINE { assert |all[0]| > MAX_LINE; }
    if i :| 0 <= i < |lines| && |lines[i]| > MAX_LINE { assert all[i + 1] == lines[i]; }
    if i :| 0 <= i < |all| && |all[i]| > MAX_LINE { assert i == 0 || lines[i - 1] == all[i]; }
  }

  lemma WordLength(chunk: string)
    ensures |Word(chunk)| == 12 + 4 * ((|Utf8(chunk)| + 2) / 3)
  {
    Base64Length(Utf8(chunk));
  }

  /** The characters of a word for so many bytes. */
  function WordSize(bytes: nat): nat { 12 + 4 * ((bytes + 2) / 3) }

  lemma WordsOf(value: string, i: nat)
    requires i < |Chunks(value)|
    ensures |Words(Chunks(value))[i]| == WordSize(|Utf8(Chunks(value)[i])|) <= 72
  {
    hide Word, Utf8, Chunks;
    ChunksMakeUpValue(value);
    WordLength(Chunks(value)[i]);
    assert Fits(Chunks(value)[i]);
  }

  lemma WordsFit(value: string)
    ensures forall i :: 0 <= i < |Words(Chunks(value))| ==> |Words(Chunks(value))[i]| < MAX_LINE
  {
    hide Word, Utf8, Chunks;
    forall i | 0 <= i < |Words(Chunks(value))| ensures |Words(Chunks(value))[i]| < MAX_LINE { WordsOf(value, i); }
  }

  /**
   * The words take no account of the header's name: an encoded subject has a line
   * that is too long exactly when it has more than 39 bytes.
   */
  lemma LongSubjectsOverrun(subject: string)
    requires subject != ""
    ensures var words := Words(Chunks(subject));
      && |words| > 0 && JoinLines(Lines("Subject: ", words, "")) == "Subject: " + Encoded(subject)
      && (Overruns(Lines("Subject: ", words, "")) <==> |Utf8(subject)| > 39)
  {
    hide Word, Utf8, Chunks, Lines, Overruns;
    FirstChunkIsGreedy(subject);
    LinesMakeHeader("Subject: ", Words(Chunks(subject)), "");
    WordsFit(subject);
    FirstOrLastOverruns("Subject: ", Words(Chunks(subject)), "");
    WordsOf(subject, 0);
    WordsOf(subject, |Chunks(subject)| - 1);
    SubjectFits(|Utf8(Chunks(subject)[0])|);
    assert "Subject: " + Encoded(subject) + "" == "Subject: " + Encoded(subject);
  }

  lemma SubjectFits(bytes: nat)
    ensures 9 + WordSize(bytes) > MAX_LINE <==> bytes > 39
  {
  }

  /**
   * Nor of what follows them: a sender whose encoded name makes one word has too long
   * a line exactly when the bytes of the name and the address are too many for one
   * line; one of several words exactly when the first has more than 42 bytes, or the
   * bytes of the last and the address are too many for the last line.
   */
  lemma LongSendersOverrun(name: string, email: string)
    requires name != ""
    ensures var chunks := Chunks(name);
      var rest := " <" + email + ">";
      && |chunks| > 0 && JoinLines(Lines("From: ", Words(chunks), rest)) == "From: " + Encoded(name) + rest
      && (Overruns(Lines("From: ", Words(chunks), rest)) <==>
            if |chunks| == 1 then 4 * ((|Utf8(name)| + 2) / 3) + |email| > 55
            else |Utf8(chunks[0])| > 42 || 4 * ((|Utf8(chunks[|chunks| - 1])| + 2) / 3) + |email| > 60)
  {
    hide Word, Utf8, Chunks, Lines, Overruns;
    var rest := " <" + email + ">";
    FirstChunkIsGreedy(name);
    LinesMakeHeader("From: ", Words(Chunks(name)), rest);
    WordsFit(name);
    FirstOrLastOverruns("From: ", Words(Chunks(name)), rest);
    WordsOf(name, 0);
    WordsOf(name, |Chunks(name)| - 1);
    if |Chunks(name)| == 1 { SingleChunk(name); }
    SenderFits(|Utf8(Chunks(name)[0])|);
  }

  lemma SenderFits(bytes: nat)
    ensures 6 + WordSize(bytes) > MAX_LINE <==> bytes > 42
  {
  }

  lemma SingleChunk(value: string)
    requires |Chunks(value)| == 1
    ensures Chunks(value)[0] == value
  {
    hide Chunks;
    ChunksMakeUpValue(value);
    var chunks := Chunks(value);
    assert Concat(chunks) == chunks[0] by { assert chunks[..0] == []; }
  }
}
