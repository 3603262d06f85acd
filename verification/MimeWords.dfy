/**
 * Encoded-words of a header (encodeMimeWords of src/utils/smtp-client.ts), and the
 * reader of sections 2 and 6.2 of RFC 2047 for them.
 */
module MimeWords {
  import opened Common
  import opened Utf8Base64

  const OPENING := "=?UTF-8?B?"
  const CLOSING := "?="
  const SEPARATOR := "\r\n "
  /** The most UTF-8 bytes of a word, unless one code point needs more. */
  const MAX_BYTES := 45

  function Word(chunk: string): string { OPENING + Base64(Utf8(chunk)) + CLOSING }

  // ── Cutting ──

  /** The chunks finished so far, and the one being filled. */
  datatype Cut = Cut(finished: seq<string>, chunk: string)

  /** One code point more: in the chunk if it still fits there, and in a new one otherwise. */
  function AddChar(cut: Cut, c: char): Cut {
    if cut.chunk != "" && |Utf8(cut.chunk + [c])| > MAX_BYTES
    then Cut(cut.finished + [cut.chunk], [c])
    else cut.(chunk := cut.chunk + [c])
  }

  function CutAll(value: string): Cut {
    if value == "" then Cut([], "") else AddChar(CutAll(value[..|value| - 1]), value[|value| - 1])
  }

  function Chunks(value: string): seq<string> {
    var cut := CutAll(value);
    if cut.chunk != "" then cut.finished + [cut.chunk] else cut.finished
  }

  function Words(chunks: seq<string>): (words: seq<string>)
    ensures |words| == |chunks| && forall i :: 0 <= i < |chunks| ==> words[i] == Word(chunks[i])
  {
    seq(|chunks|, i requires 0 <= i < |chunks| => Word(chunks[i]))
  }

  lemma WordsAppend(chunks: seq<string>, chunk: string)
    ensures Words(chunks + [chunk]) == Words(chunks) + [Word(chunk)]
  {
  }

  function Join(words: seq<string>): string {
    if words == [] then ""
    else if |words| == 1 then words[0]
    else words[0] + SEPARATOR + Join(words[1..])
  }

  function Encoded(value: string): string { Join(Words(Chunks(value))) }

  method EncodeMimeWords(value: string) returns (header: string)
    ensures header == Encoded(value)
  {
    var words: seq<string> := [];
    var chunk := "";
    ghost var finished: seq<string> := [];
    for i := 0 to |value|
      invariant Cut(finished, chunk) == CutAll(value[..i]) && words == Words(finished)
    {
      assert value[..i + 1][..i] == value[..i];
      var next := chunk + [value[i]];
      if chunk != "" && |Utf8(next)| > 45 {
        WordsAppend(finished, chunk);
        words := words + [OPENING + Base64(Utf8(chunk)) + CLOSING];
        finished := finished + [chunk];
        chunk := [value[i]];
      } else {
        chunk := next;
      }
    }
    assert value[..|value|] == value;
    if chunk != "" {
      WordsAppend(finished, chunk);
      words := words + [OPENING + Base64(Utf8(chunk)) + CLOSING];
      finished := finished + [chunk];
    }
    assert finished == Chunks(value) && words == Words(finished);
    header := Join(words);
  }

  // ── The chunks ──

  function Concat(parts: seq<string>): string {
    if parts == [] then "" else Concat(parts[..|parts| - 1]) + parts[|parts| - 1]
  }

  lemma ConcatAppend(parts: seq<string>, part: string)
    ensures Concat(parts + [part]) == Concat(parts) + part
  {
    assert (parts + [part])[..|parts|] == parts;
  }

  lemma Utf8Append(s: string, c: char)
    ensures Utf8(s + [c]) == Utf8(s) + Utf8Char(c)
  {
    assert (s + [c])[..|s|] == s;
  }

  predicate Fits(chunk: string) { chunk != "" && |Utf8(chunk)| <= MAX_BYTES }

  /** The chunks make up the value and fit. */
  ghost predicate CutOk(cut: Cut, value: string) {
    && Concat(cut.finished) + cut.chunk == value
    && (cut.chunk == "" ==> cut.finished == [])
    && (cut.chunk == "" || Fits(cut.chunk))
    && (forall i :: 0 <= i < |cut.finished| ==> Fits(cut.finished[i]))
  }

  /** The first code point of the next chunk would not have fitted any more. */
  predicate Full(chunk: string, next: string) {
    next != "" && |Utf8(chunk + [next[0]])| > MAX_BYTES
  }

  ghost predicate AllFull(chunks: seq<string>) {
    forall i :: 0 <= i < |chunks| - 1 ==> Full(chunks[i], chunks[i + 1])
  }

  lemma AddCharKeepsCut(cut: Cut, front: string, c: char, value: string)
    requires CutOk(cut, front) && value == front + [c]
    ensures CutOk(AddChar(cut, c), value)
  {
    Utf8Append("", c);
    assert "" + [c] == [c] && Utf8("") == [];
    ConcatAppend(cut.finished, cut.chunk);
    assert Concat(cut.finished) + (cut.chunk + [c]) == value;
  }

  lemma AddCharKeepsFull(cut: Cut, c: char)
    requires AllFull(cut.finished + [cut.chunk]) && (cut.chunk == "" ==> cut.finished == [])
    ensures var t := AddChar(cut, c); AllFull(t.finished + [t.chunk])
  {
    var t := AddChar(cut, c);
    var before, after := cut.finished + [cut.chunk], t.finished + [t.chunk];
    forall i | 0 <= i < |after| - 1 ensures Full(after[i], after[i + 1]) {
      assert after[i] == before[i];
      if i + 1 < |before| {
        assert Full(before[i], before[i + 1]);
        assert after[i + 1] == before[i + 1] || after[i + 1] == before[i + 1] + [c];
      }
    }
  }

  lemma {:induction false} CutAllIsOk(value: string)
    ensures CutOk(CutAll(value), value)
  {
    if |value| > 0 {
      var n := |value| - 1;
      CutAllIsOk(value[..n]);
      AddCharKeepsCut(CutAll(value[..n]), value[..n], value[n], value);
    }
  }

  lemma {:induction false} CutAllIsFull(value: string)
    ensures AllFull(CutAll(value).finished + [CutAll(value).chunk])
  {
    if value != "" {
      var n := |value| - 1;
      CutAllIsFull(value[..n]);
      CutAllIsOk(value[..n]);
      AddCharKeepsFull(CutAll(value[..n]), value[n]);
    }
  }

  lemma ChunksOfCut(cut: Cut, value: string)
    requires CutOk(cut, value)
    ensures var chunks := if cut.chunk != "" then cut.finished + [cut.chunk] else cut.finished;
      Concat(chunks) == value && forall i :: 0 <= i < |chunks| ==> Fits(chunks[i])
  {
    ConcatAppend(cut.finished, cut.chunk);
  }

  /**
   * The chunks are whole code points that make up the value in order; none is empty
   * or too long, and none could have taken one code point more.
   */
  lemma ChunksMakeUpValue(value: string)
    ensures var chunks := Chunks(value);
      && Concat(chunks) == value
      && (forall i :: 0 <= i < |chunks| ==> Fits(chunks[i]))
      && AllFull(chunks)
  {
    CutAllIsOk(value);
    CutAllIsFull(value);
    ChunksOfCut(CutAll(value), value);
  }

  /**
   * Every word is within the 75 characters of section 2 of RFC 2047, and leaves room for
   * the blank of a continuation line.
   */
  lemma WordsAreShort(value: string, i: nat)
    requires i < |Chunks(value)|
    ensures |Words(Chunks(value))[i]| <= 75 && |" " + Words(Chunks(value))[i]| <= 76
  {
    ChunksMakeUpValue(value);
    assert Fits(Chunks(value)[i]);
    Base64Length(Utf8(Chunks(value)[i]));
  }

  lemma {:induction false} Utf8Grows(a: string, b: string)
    ensures |Utf8(a + b)| >= |Utf8(a)|
  {
    if |b| == 0 {
      assert a + b == a;
    } else {
      var n := |b| - 1;
      Utf8Grows(a, b[..n]);
      LastCharAdds(a + b[..n], b[n], a + b);
    }
  }

  lemma LastCharAdds(s: string, c: char, t: string)
    requires t == s + [c]
    ensures |Utf8(t)| >= |Utf8(s)|
  {
    Utf8Append(s, c);
  }

  lemma {:induction false} FirstPartIsIn(parts: seq<string>)
    requires |parts| > 0
    ensures |Utf8(Concat(parts))| >= |Utf8(parts[0])|
  {
    var n := |parts| - 1;
    if n == 0 {
      assert Concat(parts[..0]) == "" && Concat(parts) == "" + parts[0] == parts[0];
    } else {
      FirstPartIsIn(parts[..n]);
      Utf8Grows(Concat(parts[..n]), parts[n]);
    }
  }

  /** The first chunk is the whole value, or holds more than 41 bytes: four more always fit below 42. */
  lemma FirstChunkIsGreedy(value: string)
    requires value != ""
    ensures var chunks := Chunks(value);
      && chunks != [] && |Utf8(chunks[0])| <= |Utf8(value)|
      && (chunks[0] == value || |Utf8(chunks[0])| >= 42)
  {
    var chunks := Chunks(value);
    ChunksMakeUpValue(value);
    FirstPartIsIn(chunks);
    if |chunks| == 1 {
      assert Concat(chunks) == chunks[0] by { assert chunks[..0] == []; }
    } else {
      assert Full(chunks[0], chunks[1]);
      Utf8Append(chunks[0], chunks[1][0]);
    }
  }

  // ── Reading ──

  /** The index of the first question mark from `i` on, or the end. */
  function Mark(s: string, i: nat): (m: nat)
    requires i <= |s|
    ensures i <= m <= |s|
    decreases |s| - i
  {
    if i == |s| || s[i] == '?' then i else Mark(s, i + 1)
  }

  /** One encoded-word at the front: its text and what follows it. */
  function ReadWord(s: string): Option<(string, string)> {
    if !(OPENING <= s) then None
    else
      var m := Mark(s, |OPENING|);
      if !(CLOSING <= s[m..]) then None
      else
        match ReadBase64(s[|OPENING|..m])
        case None => None
        case Some(bytes) =>
          match ReadUtf8(bytes)
          case None => None
          case Some(text) => Some((text, s[m + 2..]))
  }

  predicate IsBlank(c: char) { c == ' ' || c == '\t' || c == '\r' || c == '\n' }

  function SkipBlank(s: string): (t: string)
    ensures |t| <= |s|
  {
    if s != "" && IsBlank(s[0]) then SkipBlank(s[1..]) else s
  }

  /** Adjacent encoded-words; the white space between them is no part of the text. */
  function ReadWords(s: string): Option<string>
    decreases |s|
  {
    match ReadWord(s)
    case None => if s == "" then Some("") else None
    case Some((text, rest)) =>
      if rest == "" then Some(text)
      else if !IsBlank(rest[0]) || |SkipBlank(rest)| >= |s| then None
      else
        match ReadWords(SkipBlank(rest))
        case None => None
        case Some(more) => Some(text + more)
  }

  lemma {:induction false} MarkStops(s: string, i: nat, m: nat)
    requires i <= m < |s| && s[m] == '?' && forall k :: i <= k < m ==> s[k] != '?'
    ensures Mark(s, i) == m
    decreases m - i
  {
    if i < m { MarkStops(s, i + 1, m); }
  }

  lemma WordReads(chunk: string, rest: string)
    ensures ReadWord(Word(chunk) + rest) == Some((chunk, rest))
  {
    var code := Base64(Utf8(chunk));
    var s := Word(chunk) + rest;
    var m := |OPENING| + |code|;
    assert s[..|OPENING|] == OPENING && s[|OPENING|..m] == code;
    forall k | |OPENING| <= k < m ensures s[k] != '?' {
      assert s[k] == code[k - |OPENING|];
      Base64HasNoMark(Utf8(chunk), k - |OPENING|);
    }
    assert s[m..] == CLOSING + rest;
    assert s[m] == s[m..][0] == '?';
    MarkStops(s, |OPENING|, m);
    assert s[m + 2..] == rest;
    Base64Reads(Utf8(chunk));
    Utf8Reads(chunk);
  }

  lemma {:induction false} JoinReads(chunks: seq<string>)
    ensures ReadWords(Join(Words(chunks))) == Some(Whole(chunks))
  {
    if chunks == [] {
    } else if |chunks| == 1 {
      WordReads(chunks[0], "");
      assert Word(chunks[0]) + "" == Word(chunks[0]) && chunks[0] + "" == chunks[0];
      assert chunks[1..] == [];
    } else {
      JoinReads(chunks[1..]);
      assert Words(chunks)[1..] == Words(chunks[1..]);
      SeparatedReads(chunks[0], Join(Words(chunks[1..])), Whole(chunks[1..]));
      JoinStartsWithWord(chunks[1..]);
    }
  }

  /** The chunks put together from the front. */
  function Whole(chunks: seq<string>): string {
    if chunks == [] then "" else chunks[0] + Whole(chunks[1..])
  }

  lemma JoinStartsWithWord(chunks: seq<string>)
    requires chunks != []
    ensures var s := Join(Words(chunks)); s != "" && s[0] == '='
  {
    assert Words(chunks)[0] == Word(chunks[0]);
    assert Word(chunks[0])[0] == OPENING[0];
  }

  lemma SeparatorSkipped(s: string)
    requires s != "" && s[0] == '='
    ensures SkipBlank(SEPARATOR + s) == s
  {
    var rest := SEPARATOR + s;
    assert rest[1..][1..][1..] == s && rest[1..][1..][0] == ' ' && rest[1..][0] == '\n';
    assert SkipBlank(rest[1..][1..]) == SkipBlank(s);
    assert SkipBlank(rest) == SkipBlank(rest[1..]);
  }

  lemma NextWordReads(s: string, chunk: string, rest: string, text: string)
    requires ReadWord(s) == Some((chunk, rest)) && rest != "" && IsBlank(rest[0])
    requires |SkipBlank(rest)| < |s| && ReadWords(SkipBlank(rest)) == Some(text)
    ensures ReadWords(s) == Some(chunk + text)
  {
  }

  lemma SeparatedReads(chunk: string, s: string, text: string)
    requires ReadWords(s) == Some(text) && s != "" && s[0] == '='
    ensures ReadWords(Word(chunk) + SEPARATOR + s) == Some(chunk + text)
  {
    var rest := SEPARATOR + s;
    WordReads(chunk, rest);
    SeparatorSkipped(s);
    NextWordReads(Word(chunk) + rest, chunk, rest, text);
    Associative(Word(chunk), SEPARATOR, s);
  }

  lemma {:induction false} WholeIsConcat(chunks: seq<string>)
    ensures Whole(chunks) == Concat(chunks)
  {
    if chunks != [] {
      var n := |chunks| - 1;
      WholeIsConcat(chunks[..n]);
      WholeAppend(chunks[..n], chunks[n]);
      assert chunks[..n] + [chunks[n]] == chunks;
    }
  }

  lemma {:induction false} WholeAppend(chunks: seq<string>, chunk: string)
    ensures Whole(chunks + [chunk]) == Whole(chunks) + chunk
  {
    if chunks == [] {
      assert [chunk][1..] == [] && chunk + "" == chunk == "" + chunk;
      assert [] + [chunk] == [chunk];
    } else {
      WholeAppend(chunks[1..], chunk);
      assert (chunks + [chunk])[1..] == chunks[1..] + [chunk];
      assert chunks[0] + (Whole(chunks[1..]) + chunk) == (chunks[0] + Whole(chunks[1..])) + chunk;
    }
  }

  /** A reader of encoded-words gets back exactly the text, for every well-formed text. */
  lemma EncodedWordsDecode(value: string)
    ensures ReadWords(Encoded(value)) == Some(value)
  {
    ChunksMakeUpValue(value);
    JoinReads(Chunks(value));
    WholeIsConcat(Chunks(value));
  }
}
