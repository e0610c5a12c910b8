/**
 * The streaming path shared by the internet-search and context-carrying
 * components: each decoded chunk is cut into event units, each unit is
 * parsed on its own, and every `token` event appends its text to the last
 * transcript message.
 */
module EventStream {
  import opened Wrappers
  import opened Text
  import opened Chat

  /** A parsed event: its `type` field and its `content` field. */
  datatype Event = Event(kind: string, content: string)

  /** `JSON.parse` followed by reading `type` and `content`; `None` where it throws. */
  type Parser = string -> Option<Event>

  const Separator := "\n\n"
  const DataPrefix := "data: "
  const TokenKind := "token"

  /** No line break anywhere in `s`, as in a `JSON.stringify` result. */
  predicate SingleLine(s: string) {
    forall k :: 0 <= k < |s| ==> s[k] != '\n'
  }

  /**
   * `.filter(line => line.trim() !== "").map(line => line.replace("data: ", ""))`:
   * blank pieces are dropped before the prefix is removed from the others.
   */
  function Units(pieces: seq<string>): (r: seq<string>)
    ensures |r| <= |pieces|
  {
    if pieces == [] then []
    else (if Blank(pieces[0]) then [] else [RemoveFirst(pieces[0], DataPrefix)]) + Units(pieces[1..])
  }

  /** Units keeps the order of the pieces: it distributes over concatenation. */
  lemma {:induction false} UnitsAppend(a: seq<string>, b: seq<string>)
    ensures Units(a + b) == Units(a) + Units(b)
  {
    if a != [] {
      assert (a + b)[0] == a[0];
      assert (a + b)[1..] == a[1..] + b;
      UnitsAppend(a[1..], b);
      var head := if Blank(a[0]) then [] else [RemoveFirst(a[0], DataPrefix)];
      assert head + (Units(a[1..]) + Units(b)) == (head + Units(a[1..])) + Units(b);
    } else {
      assert a + b == b;
    }
  }

  /** The event units of one decoded chunk, in the order they appear in it. */
  function ExtractEvents(chunk: string): seq<string> {
    Units(Split(chunk, Separator))
  }

  lemma SingleLineFree(s: string)
    requires SingleLine(s)
    ensures Free(s, Separator)
  {
    forall j | 0 <= j <= |s| ensures !OccursAt(s, Separator, j) {
      assert j + 2 <= |s| ==> s[j..j + 2][0] == s[j];
    }
  }

  lemma DataPrefixed(p: string)
    ensures SingleLine(p) ==> SingleLine(DataPrefix + p)
    ensures !Blank(DataPrefix + p)
    ensures RemoveFirst(DataPrefix + p, DataPrefix) == p
  {
    var x := DataPrefix + p;
    BlankIff(x);
    assert x[0] == 'd' && !IsWhitespace(x[0]);
    assert OccursAt(x, DataPrefix, 0) by {
      assert x[..|DataPrefix|] == DataPrefix;
    }
    assert x[|DataPrefix|..] == p;
  }

  /** The framing the streaming endpoint emits: each payload as `data: <payload>` followed by a blank line. */
  function EncodeEvents(payloads: seq<string>): string {
    if payloads == [] then "" else DataPrefix + payloads[0] + Separator + EncodeEvents(payloads[1..])
  }

  /** Extraction undoes the framing for single-line payloads: nothing lost, nothing added, order kept. */
  lemma {:induction false} ExtractEncoded(payloads: seq<string>)
    requires forall k :: 0 <= k < |payloads| ==> SingleLine(payloads[k])
    ensures ExtractEvents(EncodeEvents(payloads)) == payloads
  {
    if payloads == [] {
      SingleLineFree("");
      SplitFree("", Separator);
      assert Blank("");
    } else {
      var x := DataPrefix + payloads[0];
      var rest := EncodeEvents(payloads[1..]);
      DataPrefixed(payloads[0]);
      SplitAtFirst(x, Separator, rest);
      UnitsAppend([x], Split(rest, Separator));
      ExtractEncoded(payloads[1..]);
      assert [payloads[0]] + payloads[1..] == payloads;
    }
  }

  /**
   * The filter runs before the prefix is removed, so a unit that is only
   * `data: ` comes out as the empty string rather than being dropped.
   */
  lemma StrippedUnitMayBeBlank()
    ensures ExtractEvents(DataPrefix) == [""]
  {
    DataPrefixed("");
    SingleLineFree(DataPrefix + "");
    assert DataPrefix + "" == DataPrefix;
    SplitFree(DataPrefix, Separator);
  }

  /** The token text a unit contributes: its content if it parses as a `token` event, nothing otherwise. */
  function TokenOf(unit: string, parse: Parser): (r: seq<string>)
    ensures |r| <= 1
    ensures r == [] <==> parse(unit).None? || parse(unit).value.kind != TokenKind
    ensures r != [] ==> r == [parse(unit).value.content]
  {
    match parse(unit)
    case Some(e) => if e.kind == TokenKind then [e.content] else []
    case None => []
  }

  /** The token texts of a sequence of units, in order. */
  function UnitTokens(units: seq<string>, parse: Parser): seq<string> {
    if units == [] then [] else TokenOf(units[0], parse) + UnitTokens(units[1..], parse)
  }

  lemma {:induction false} UnitTokensAppend(a: seq<string>, b: seq<string>, parse: Parser)
    ensures UnitTokens(a + b, parse) == UnitTokens(a, parse) + UnitTokens(b, parse)
  {
    if a != [] {
      assert (a + b)[0] == a[0];
      assert (a + b)[1..] == a[1..] + b;
      UnitTokensAppend(a[1..], b, parse);
      var head := TokenOf(a[0], parse);
      assert head + (UnitTokens(a[1..], parse) + UnitTokens(b, parse))
          == (head + UnitTokens(a[1..], parse)) + UnitTokens(b, parse);
    } else {
      assert a + b == b;
    }
  }

  /** A unit that fails to parse or is not a token event is skipped; the units after it still count. */
  lemma SkippedUnit(before: seq<string>, unit: string, after: seq<string>, parse: Parser)
    requires parse(unit).None? || parse(unit).value.kind != TokenKind
    ensures UnitTokens(before + [unit] + after, parse) == UnitTokens(before, parse) + UnitTokens(after, parse)
  {
    UnitTokensAppend(before + [unit], after, parse);
    UnitTokensAppend(before, [unit], parse);
  }

  /** The token texts of a whole stream: each chunk is extracted on its own, chunks in arrival order. */
  function StreamTokens(chunks: seq<string>, parse: Parser): seq<string> {
    if chunks == [] then [] else UnitTokens(ExtractEvents(chunks[0]), parse) + StreamTokens(chunks[1..], parse)
  }

  lemma UnitTokensOne(u: string, parse: Parser)
    ensures UnitTokens([u], parse) == TokenOf(u, parse)
  {
    assert UnitTokens([u], parse) == TokenOf(u, parse) + UnitTokens([], parse);
  }

  lemma StreamTokensOne(c: string, parse: Parser)
    ensures StreamTokens([c], parse) == UnitTokens(ExtractEvents(c), parse)
  {
    assert StreamTokens([c], parse) == UnitTokens(ExtractEvents(c), parse) + StreamTokens([], parse);
  }

  lemma {:induction false} StreamTokensAppend(a: seq<string>, b: seq<string>, parse: Parser)
    ensures StreamTokens(a + b, parse) == StreamTokens(a, parse) + StreamTokens(b, parse)
  {
    if a != [] {
      assert (a + b)[0] == a[0];
      assert (a + b)[1..] == a[1..] + b;
      StreamTokensAppend(a[1..], b, parse);
      var head := UnitTokens(ExtractEvents(a[0]), parse);
      assert head + (StreamTokens(a[1..], parse) + StreamTokens(b, parse))
          == (head + StreamTokens(a[1..], parse)) + StreamTokens(b, parse);
    } else {
      assert a + b == b;
    }
  }

  /** A chunk holding the front of an event, with no terminating blank line, is one unit. */
  lemma ExtractUnterminated(a: string)
    requires SingleLine(a)
    ensures ExtractEvents(DataPrefix + a) == [a]
  {
    DataPrefixed(a);
    SingleLineFree(DataPrefix + a);
    SplitFree(DataPrefix + a, Separator);
    assert Units([DataPrefix + a]) == [a] + Units([]);
  }

  /** A chunk holding the back of an event, with its terminating blank line, is one unit. */
  lemma ExtractTail(b: string)
    requires SingleLine(b) && !Blank(b) && Free(b, DataPrefix)
    ensures ExtractEvents(b + Separator) == [b]
  {
    SplitAtFirst(b, Separator, "");
    assert b + Separator + "" == b + Separator;
    SingleLineFree("");
    SplitFree("", Separator);
    assert Blank("");
    UnitsAppend([b], [""]);
    assert Units([b]) == [b] + Units([]);
    assert Units([""]) == [] + Units([]);
  }

  /** A complete single-line event in one chunk is one unit. */
  lemma ExtractWhole(ab: string)
    requires SingleLine(ab)
    ensures ExtractEvents(DataPrefix + ab + Separator) == [ab]
  {
    assert EncodeEvents([ab]) == DataPrefix + ab + Separator + EncodeEvents([]);
    assert DataPrefix + ab + Separator + "" == DataPrefix + ab + Separator;
    ExtractEncoded([ab]);
  }

  /**
   * No text is carried from one chunk to the next: an event cut in two by a
   * chunk boundary reaches the parser as two separate units, where the same
   * bytes in one chunk would have been one unit.
   */
  lemma SplitEventNotReassembled(a: string, b: string, parse: Parser)
    requires SingleLine(a) && SingleLine(b) && !Blank(b) && Free(b, DataPrefix)
    ensures ExtractEvents(DataPrefix + a + b + Separator) == [a + b]
    ensures StreamTokens([DataPrefix + a, b + Separator], parse) == TokenOf(a, parse) + TokenOf(b, parse)
  {
    ExtractJoined(a, b);
    ExtractHalves(a, b, parse);
  }

  lemma SingleLineConcat(a: string, b: string)
    requires SingleLine(a) && SingleLine(b)
    ensures SingleLine(a + b)
  {
    forall k | 0 <= k < |a + b| ensures (a + b)[k] != '\n' {
      if k < |a| { assert (a + b)[k] == a[k]; } else { assert (a + b)[k] == b[k - |a|]; }
    }
  }

  lemma ExtractJoined(a: string, b: string)
    requires SingleLine(a) && SingleLine(b)
    ensures ExtractEvents(DataPrefix + a + b + Separator) == [a + b]
  {
    SingleLineConcat(a, b);
    ExtractWhole(a + b);
    assert DataPrefix + (a + b) + Separator == DataPrefix + a + b + Separator;
  }

  lemma ExtractHalves(a: string, b: string, parse: Parser)
    requires SingleLine(a) && SingleLine(b) && !Blank(b) && Free(b, DataPrefix)
    ensures StreamTokens([DataPrefix + a, b + Separator], parse) == TokenOf(a, parse) + TokenOf(b, parse)
  {
    var first, second := DataPrefix + a, b + Separator;
    ExtractUnterminated(a);
    ExtractTail(b);
    StreamTokensAppend([first], [second], parse);
    assert [first] + [second] == [first, second];
    StreamTokensOne(first, parse);
    StreamTokensOne(second, parse);
    UnitTokensOne(a, parse);
    UnitTokensOne(b, parse);
  }

  /** Concatenation of a sequence of strings, in order. */
  function Concat(ss: seq<string>): string {
    if ss == [] then "" else ss[0] + Concat(ss[1..])
  }

  lemma {:induction false} ConcatAppend(a: seq<string>, b: seq<string>)
    ensures Concat(a + b) == Concat(a) + Concat(b)
  {
    if a != [] {
      assert (a + b)[0] == a[0];
      assert (a + b)[1..] == a[1..] + b;
      ConcatAppend(a[1..], b);
      assert a[0] + (Concat(a[1..]) + Concat(b)) == (a[0] + Concat(a[1..])) + Concat(b);
    } else {
      assert a + b == b;
    }
  }

  /**
   * The updater run for one event unit: a token event appends its text to
   * the last message; a unit that fails to parse or is of another type leaves
   * the transcript as it was.
   */
  function ApplyUnit(t: seq<Message>, unit: string, parse: Parser): (r: seq<Message>)
    requires |t| > 0
    ensures r == AppendToken(t, Concat(TokenOf(unit, parse)))
    ensures TokenOf(unit, parse) == [] ==> r == t
  {
    AppendEmptyToken(t);
    match parse(unit)
    case Some(e) => if e.kind == TokenKind then ConcatSingle(e.content); AppendToken(t, e.content) else t
    case None => t
  }

  lemma ConcatSingle(x: string)
    ensures Concat([x]) == x
  {
    assert [x][1..] == [];
    assert x + "" == x;
  }

  /** One pass of the per-event loop extends the applied token text by that unit's token. */
  lemma UnitStep(t0: seq<Message>, events: seq<string>, j: nat, parse: Parser)
    requires |t0| > 0 && j < |events|
    ensures ApplyUnit(AppendToken(t0, Concat(UnitTokens(events[..j], parse))), events[j], parse)
         == AppendToken(t0, Concat(UnitTokens(events[..j + 1], parse)))
  {
    var x := Concat(UnitTokens(events[..j], parse));
    var y := Concat(TokenOf(events[j], parse));
    UnitTokensStep(events, j, parse);
    AppendTokenTwice(t0, x, y);
  }

  lemma UnitTokensStep(events: seq<string>, j: nat, parse: Parser)
    requires j < |events|
    ensures Concat(UnitTokens(events[..j], parse)) + Concat(TokenOf(events[j], parse))
         == Concat(UnitTokens(events[..j + 1], parse))
  {
    var before := UnitTokens(events[..j], parse);
    var tok := TokenOf(events[j], parse);
    assert events[..j + 1] == events[..j] + [events[j]];
    UnitTokensAppend(events[..j], [events[j]], parse);
    UnitTokensOne(events[j], parse);
    ConcatAppend(before, tok);
  }

  /** One pass of the read loop extends the applied token text by that chunk's tokens. */
  lemma ChunkStep(chunks: seq<string>, i: nat, parse: Parser)
    requires i < |chunks|
    ensures Concat(StreamTokens(chunks[..i + 1], parse))
         == Concat(StreamTokens(chunks[..i], parse)) + Concat(UnitTokens(ExtractEvents(chunks[i]), parse))
  {
    var here := UnitTokens(ExtractEvents(chunks[i]), parse);
    assert chunks[..i + 1] == chunks[..i] + [chunks[i]];
    StreamTokensAppend(chunks[..i], [chunks[i]], parse);
    assert StreamTokens([chunks[i]], parse) == here + StreamTokens([], parse);
    assert here + [] == here;
    ConcatAppend(StreamTokens(chunks[..i], parse), here);
  }

  /**
   * The read loop and the per-event loop of `handleStream`: the chunks are
   * read in order, each is cut into units, and each unit is applied to the
   * transcript. The net effect is one append, to the last message, of every
   * token text of the stream in arrival order.
   */
  method ConsumeStream(t0: seq<Message>, chunks: seq<string>, parse: Parser) returns (t: seq<Message>)
    requires |t0| > 0
    ensures t == AppendToken(t0, Concat(StreamTokens(chunks, parse)))
  {
    AppendEmptyToken(t0);
    t := t0;
    var i := 0;
    assert chunks[..i] == [];
    while i < |chunks|
      invariant 0 <= i <= |chunks|
      invariant t == AppendToken(t0, Concat(StreamTokens(chunks[..i], parse)))
    {
      ghost var done := Concat(StreamTokens(chunks[..i], parse));
      var events := ExtractEvents(chunks[i]);
      t := ApplyUnits(t, events, parse);
      AppendTokenTwice(t0, done, Concat(UnitTokens(events, parse)));
      ChunkStep(chunks, i, parse);
      i := i + 1;
    }
    assert chunks[..i] == chunks;
  }

  /**
   * The per-event loop of `handleStream` over the units of one chunk: each
   * unit is applied in turn, so the chunk's token texts are appended, in
   * order, to the last message.
   */
  method ApplyUnits(t0: seq<Message>, events: seq<string>, parse: Parser) returns (t: seq<Message>)
    requires |t0| > 0
    ensures t == AppendToken(t0, Concat(UnitTokens(events, parse)))
  {
    AppendEmptyToken(t0);
    t := t0;
    var j := 0;
    assert events[..j] == [];
    while j < |events|
      invariant 0 <= j <= |events|
      invariant t == AppendToken(t0, Concat(UnitTokens(events[..j], parse)))
    {
      UnitStep(t0, events, j, parse);
      t := ApplyUnit(t, events[j], parse);
      j := j + 1;
    }
    assert events[..j] == events;
  }

  /** Streaming into a fresh placeholder leaves it holding exactly the stream's token text. */
  lemma FillPlaceholder(t: seq<Message>, sources: Option<seq<string>>, text: string)
    ensures AppendToken(t + [Placeholder(sources)], text) == t + [Message(Assistant, text, sources)]
  {
    assert "" + text == text;
  }
}
