/** The text a relayed entry takes, and that its size is counted right (src/config/cache.ts). */
module RelayJson {
  import opened InvalidationRelay

  const HEX := "0123456789abcdef"

  /** What JSON.stringify writes for a character inside a string. */
  function Escaped(c: char): string {
    if c == '"' then "\\\""
    else if c == '\\' then "\\\\"
    else if c == '\n' then "\\n"
    else if c == '\r' then "\\r"
    else if c == '\t' then "\\t"
    else if c as int == 8 then "\\b"
    else if c as int == 12 then "\\f"
    else if c as int < 0x20 then "\\u00" + [HEX[c as int / 16], HEX[c as int % 16]]
    else [c]
  }

  function Quoted(s: string): string { "\"" + AllEscaped(s) + "\"" }

  function AllEscaped(s: string): string {
    if |s| == 0 then "" else AllEscaped(s[..|s| - 1]) + Escaped(s[|s| - 1])
  }

  /** The segments, separated by commas. */
  function Items(e: Entry): string {
    if |e| == 0 then ""
    else if |e| == 1 then Quoted(e[0])
    else Items(e[..|e| - 1]) + "," + Quoted(e[|e| - 1])
  }

  /** JSON.stringify(segments). */
  function Json(e: Entry): string { "[" + Items(e) + "]" }

  /** The length of a text in JavaScript, in UTF-16 code units. */
  function Utf16Length(s: string): nat {
    if |s| == 0 then 0 else Utf16Length(s[..|s| - 1]) + if s[|s| - 1] as int >= 0x1_0000 then 2 else 1
  }

  lemma {:induction false} LengthConcat(a: string, b: string)
    ensures Utf16Length(a + b) == Utf16Length(a) + Utf16Length(b)
  {
    if |b| == 0 {
      assert a + b == a;
    } else {
      assert (a + b)[..|a + b| - 1] == a + b[..|b| - 1];
      LengthConcat(a, b[..|b| - 1]);
    }
  }

  lemma {:induction false} PlainLength(s: string)
    requires forall i :: 0 <= i < |s| ==> s[i] as int < 0x1_0000
    ensures Utf16Length(s) == |s|
  {
    if |s| > 0 { PlainLength(s[..|s| - 1]); }
  }

  lemma EscapedLength(c: char)
    ensures Utf16Length(Escaped(c)) == CharSize(c)
  {
    if c as int < 0x1_0000 {
      PlainLength(Escaped(c));
    } else {
      assert [c][..0] == [];
    }
  }

  lemma {:induction false} EscapedLengths(s: string)
    ensures Utf16Length(AllEscaped(s)) == TextSize(s)
  {
    if |s| > 0 {
      EscapedLengths(s[..|s| - 1]);
      EscapedLength(s[|s| - 1]);
      LengthConcat(AllEscaped(s[..|s| - 1]), Escaped(s[|s| - 1]));
    }
  }

  lemma QuotedLength(s: string)
    ensures Utf16Length(Quoted(s)) == TextSize(s) + 2
  {
    EscapedLengths(s);
    PlainLength("\"");
    LengthConcat("\"", AllEscaped(s));
    LengthConcat("\"" + AllEscaped(s), "\"");
  }

  lemma {:induction false} ItemsLength(e: Entry)
    requires |e| > 0
    ensures Utf16Length(Items(e)) + 1 == SegmentsSize(e)
  {
    var n := |e| - 1;
    QuotedLength(e[n]);
    if n > 0 {
      ItemsLength(e[..n]);
      PlainLength(",");
      LengthConcat(Items(e[..n]), ",");
      LengthConcat(Items(e[..n]) + ",", Quoted(e[n]));
    } else {
      assert e[..0] == [];
    }
  }

  /** The size counted for an entry is the length of its JSON text and the comma or bracket after it. */
  lemma EntrySizeIsJsonLength(e: Entry)
    ensures EntrySize(e) == Utf16Length(Json(e)) + 1
  {
    PlainLength("[");
    PlainLength("]");
    LengthConcat("[", Items(e));
    LengthConcat("[" + Items(e), "]");
    if |e| > 0 { ItemsLength(e); } else { assert Items(e) == ""; }
  }
}
