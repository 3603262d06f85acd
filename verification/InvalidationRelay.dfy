/** The relay of missed cache invalidations to the other processes (src/config/cache.ts). */
module InvalidationRelay {
  const RELAY_MESSAGE_MAX_CHARS := 6_000
  const RELAY_RECEIVE_MAX_ENTRIES := 1_000

  /** The segments of a version key. */
  type Entry = seq<string>

  // ── What an entry takes ──

  /** The characters JSON.stringify writes for one, as UTF-16 code units. */
  function CharSize(c: char): nat {
    if c == '"' || c == '\\' || c == '\n' || c == '\r' || c == '\t' || c as int == 8 || c as int == 12 then 2
    else if c as int < 0x20 then 6
    else if c as int >= 0x1_0000 then 2
    else 1
  }

  function TextSize(s: string): nat {
    if s == "" then 0 else TextSize(s[..|s| - 1]) + CharSize(s[|s| - 1])
  }

  /** Quotes, text, and the comma or bracket after each segment. */
  function SegmentsSize(e: Entry): nat {
    if e == [] then 0 else SegmentsSize(e[..|e| - 1]) + TextSize(e[|e| - 1]) + 3
  }

  /** JSON.stringify(segments).length + 1. */
  function EntrySize(e: Entry): nat {
    (if e == [] then 2 else 1 + SegmentsSize(e)) + 1
  }

  /** The namespaces src/config/cache-keys.ts builds; `hash` is a digest of the domain. */
  datatype Namespace =
    | PublicDomain(hash: string, publicResource: string)
    | TenantResource(tenant: string, resource: string)
    | EmailTemplates
    | TenantEmailTemplate(templateTenant: string, templateKey: string)
    | CoursePart(course: string, part: CoursePart)
    | BlockContent(block: string)
    | UserPart(user: string, userPart: UserPart)
    | UserCourseProgress(learner: string, learned: string)
    | Bot(bot: string)
    | Modules

  datatype CoursePart = Content | Assets | Modal

  datatype UserPart = Membership | Badges | Notifications

  function Segments(n: Namespace): Entry {
    match n
    case PublicDomain(hash, resource) => ["public", "domain", hash, resource]
    case TenantResource(tenant, resource) => ["tenant", tenant, resource]
    case EmailTemplates => ["system", "email-templates"]
    case TenantEmailTemplate(tenant, key) => ["tenant", tenant, "email-template", key]
    case CoursePart(course, part) =>
      ["course", course, match part case Content => "content" case Assets => "assets" case Modal => "modal"]
    case BlockContent(block) => ["block", block, "content"]
    case UserPart(user, part) =>
      ["user", user,
       match part case Membership => "membership" case Badges => "badges" case Notifications => "notifications"]
    case UserCourseProgress(user, course) => ["user", user, "course", course, "progress"]
    case Bot(bot) => ["bot", bot]
    case Modules => ["system", "modules"]
  }

  lemma {:induction false} TextIsAtLeast(s: string)
    ensures TextSize(s) >= |s|
  {
    if s != "" { TextIsAtLeast(s[..|s| - 1]); }
  }

  lemma SegmentsAppend(e: Entry, segment: string)
    ensures SegmentsSize(e + [segment]) == SegmentsSize(e) + TextSize(segment) + 3
  {
    assert (e + [segment])[..|e|] == e;
  }

  lemma {:induction false} LongerEntry(e: Entry, more: Entry)
    ensures SegmentsSize(e + more) >= SegmentsSize(e) + 3 * |more|
  {
    if more == [] {
      assert e + more == e;
    } else {
      LongerEntry(e, more[..|more| - 1]);
      assert e + more == (e + more[..|more| - 1]) + [more[|more| - 1]];
      SegmentsAppend(e + more[..|more| - 1], more[|more| - 1]);
    }
  }

  /** No entry the code queues is shorter than `["bot",""]` and its comma. */
  lemma RelayedEntriesAreLong(n: Namespace)
    ensures EntrySize(Segments(n)) >= 11
  {
    var e := Segments(n);
    assert |e[0]| >= 3 && |e| >= 2;
    TextIsAtLeast(e[0]);
    SegmentsAppend([], e[0]);
    assert [] + [e[0]] == [e[0]];
    LongerEntry([e[0]], e[1..]);
    assert [e[0]] + e[1..] == e;
  }

  // ── The messages ──

  function Concat(chunks: seq<seq<Entry>>): seq<Entry> {
    if chunks == [] then [] else Concat(chunks[..|chunks| - 1]) + chunks[|chunks| - 1]
  }

  lemma ConcatAppend(chunks: seq<seq<Entry>>, chunk: seq<Entry>)
    ensures Concat(chunks + [chunk]) == Concat(chunks) + chunk
  {
    assert (chunks + [chunk])[..|chunks|] == chunks;
  }

  function Chars(chunk: seq<Entry>): nat {
    if chunk == [] then 0 else Chars(chunk[..|chunk| - 1]) + EntrySize(chunk[|chunk| - 1])
  }

  lemma CharsAppend(chunk: seq<Entry>, e: Entry)
    ensures Chars(chunk + [e]) == Chars(chunk) + EntrySize(e)
  {
    assert (chunk + [e])[..|chunk|] == chunk;
  }

  /** A message is within the limit unless it holds a single entry. */
  ghost predicate Fits(chunk: seq<Entry>) {
    chunk != [] && (|chunk| == 1 || Chars(chunk) <= RELAY_MESSAGE_MAX_CHARS)
  }

  /** The first entry of `next` did not fit into `message` any more. */
  ghost predicate Full(message: seq<Entry>, next: seq<Entry>) {
    next != [] && Chars(message) + EntrySize(next[0]) > RELAY_MESSAGE_MAX_CHARS
  }

  ghost predicate AllFit(messages: seq<seq<Entry>>) {
    forall m :: m in messages ==> Fits(m)
  }

  ghost predicate AllFull(messages: seq<seq<Entry>>) {
    forall i :: 0 <= i < |messages| - 1 ==> Full(messages[i], messages[i + 1])
  }

  /** What is cut so far: the finished messages, and the one being filled. */
  ghost predicate Cut(messages: seq<seq<Entry>>, chunk: seq<Entry>, batch: seq<Entry>) {
    && Concat(messages) + chunk == batch
    && AllFit(messages) && AllFull(messages)
    && (if chunk == [] then messages == [] else Fits(chunk))
    && (messages != [] ==> Full(messages[|messages| - 1], chunk))
  }

  /** The entry starts a message, when the current one, if any, is full. */
  lemma CutStarts(messages: seq<seq<Entry>>, chunk: seq<Entry>, batch: seq<Entry>, e: Entry)
    requires Cut(messages, chunk, batch) && chunk != [] && Chars(chunk) + EntrySize(e) > RELAY_MESSAGE_MAX_CHARS
    ensures Cut(messages + [chunk], [e], batch + [e])
  {
    ConcatAppend(messages, chunk);
    assert Concat(messages + [chunk]) + [e] == batch + [e];
  }

  lemma CutGrows(messages: seq<seq<Entry>>, chunk: seq<Entry>, batch: seq<Entry>, e: Entry)
    requires Cut(messages, chunk, batch) && (chunk == [] || Chars(chunk) + EntrySize(e) <= RELAY_MESSAGE_MAX_CHARS)
    ensures Cut(messages, chunk + [e], batch + [e])
  {
    CharsAppend(chunk, e);
    assert Concat(messages) + (chunk + [e]) == batch + [e];
  }

  lemma CutEnds(messages: seq<seq<Entry>>, chunk: seq<Entry>, batch: seq<Entry>)
    requires Cut(messages, chunk, batch)
    ensures var all := if |chunk| > 0 then messages + [chunk] else messages;
      Concat(all) == batch && AllFit(all) && AllFull(all)
  {
    if |chunk| > 0 {
      ConcatAppend(messages, chunk);
    } else {
      assert Concat(messages) + chunk == Concat(messages);
    }
  }

  /**
   * flushInvalidationRelay over the queued entries: the messages hold every
   * entry once, in order; each fits; and no two neighbours could have been
   * one message.
   */
  method FlushInvalidationRelay(batch: seq<Entry>) returns (messages: seq<seq<Entry>>)
    ensures Concat(messages) == batch && AllFit(messages) && AllFull(messages)
  {
    messages := [];
    var chunk: seq<Entry> := [];
    var chars := 0;
    for i := 0 to |batch|
      invariant Cut(messages, chunk, batch[..i]) && chars == Chars(chunk)
    {
      var segments := batch[i];
      var size := EntrySize(segments);
      assert batch[..i] + [segments] == batch[..i + 1];
      if |chunk| > 0 && chars + size > RELAY_MESSAGE_MAX_CHARS {
        CutStarts(messages, chunk, batch[..i], segments);
        messages := messages + [chunk];
        chunk := [];
        chars := 0;
      } else {
        CutGrows(messages, chunk, batch[..i], segments);
      }
      CharsAppend(chunk, segments);
      chunk := chunk + [segments];
      chars := chars + size;
    }
    assert batch[..|batch|] == batch;
    CutEnds(messages, chunk, batch);
    if |chunk| > 0 { messages := messages + [chunk]; }
  }

  // ── The receiver ──

  lemma {:induction false} CharsAtLeast(chunk: seq<Entry>)
    requires forall e :: e in chunk ==> EntrySize(e) >= 11
    ensures Chars(chunk) >= 11 * |chunk|
  {
    if chunk != [] {
      assert forall e :: e in chunk[..|chunk| - 1] ==> e in chunk;
      CharsAtLeast(chunk[..|chunk| - 1]);
      assert chunk[|chunk| - 1] in chunk;
    }
  }

  lemma {:induction false} ConcatHolds(messages: seq<seq<Entry>>, message: seq<Entry>, e: Entry)
    requires message in messages && e in message
    ensures e in Concat(messages)
  {
    var n := |messages| - 1;
    if message != messages[n] {
      var i :| 0 <= i < |messages| && messages[i] == message;
      assert messages[..n][i] == message;
      ConcatHolds(messages[..n], message, e);
    }
  }

  /**
   * Whatever namespaces were queued, the receiver, which looks at the first
   * 1000 entries of a message only, misses none: a message holds at most 545.
   */
  lemma ReceiverTakesAll(batch: seq<Entry>, messages: seq<seq<Entry>>, message: seq<Entry>)
    requires Concat(messages) == batch && AllFit(messages) && message in messages
    requires forall e :: e in batch ==> exists n :: e == Segments(n)
    ensures |message| <= RELAY_MESSAGE_MAX_CHARS / 11 < RELAY_RECEIVE_MAX_ENTRIES
  {
    forall e | e in message ensures EntrySize(e) >= 11 {
      ConcatHolds(messages, message, e);
      var n :| e == Segments(n);
      RelayedEntriesAreLong(n);
    }
    CharsAtLeast(message);
  }
}
