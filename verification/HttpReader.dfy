/** The read loop of CloudDiskServer::handle_client (src/server.cpp): read until the header block and,
    when a length is announced, the whole body is in (section 6.3 of RFC 9112). */
module HttpReading {
  import opened Common
  import opened Text
  import opened HttpText
  import opened HttpParsing
  import opened UrlCoding

  /** The loop looks for the header name in this spelling only. */
  const LITERAL: string := "Content-Length:"

  /** What one call of read(fd, buffer, 8192) gives: some bytes, 0, or -1. */
  datatype ReadResult = Got(bytes: string) | Closed | Failed

  /** Conversion to int. */
  function Int32(x: int): int {
    (x + 0x8000_0000) % 0x1_0000_0000 - 0x8000_0000
  }

  /** The text between the name and the end of its line. */
  function Announced(data: string, pos: nat): string
    requires pos + |LITERAL| <= |data|
  {
    var rest := data[pos + |LITERAL|..];
    match Find(rest, CRLF) case Some(e) => rest[..e] case None => rest
  }

  /** Given where the header block ends, the announced body is in; an unreadable length ends the loop. */
  function BodyIn(data: string, h: int, announced: string): bool {
    match ParseInt(announced, INT_MIN, INT_MAX)
    case None => true
    case Some(n) => Int32(|data| - h - 4) >= n
  }

  /** The loop stops reading. */
  function Enough(data: string): bool {
    var h := Find(data, BLANK);
    var pos := Find(data, LITERAL);
    h.Some? && (pos.Some? ==> BodyIn(data, h.value, Announced(data, pos.value)))
  }

  /** What the loop hands to the parser; None when a read failed. */
  function Received(results: seq<ReadResult>, data: string): Option<string> {
    if results == [] || results[0].Closed? then Some(data)
    else if results[0].Failed? then None
    else if Enough(data + results[0].bytes) then Some(data + results[0].bytes)
    else Received(results[1..], data + results[0].bytes)
  }

  /** The checks of one turn; `more` is the code's continue. */
  method NeedsMore(data: string) returns (more: bool)
    ensures more == !Enough(data)
  {
    var headerEnd := Find(data, BLANK);
    if headerEnd.None? {
      return true;
    }
    var pos := Find(data, LITERAL);
    if pos.None? {
      return false;
    }
    var length := ParseInt(Announced(data, pos.value), INT_MIN, INT_MAX);
    if length.None? {
      return false;
    }
    return Int32(|data| - headerEnd.value - 4) < length.value;
  }

  method ReadRequest(results: seq<ReadResult>) returns (request: Option<string>)
    ensures request == Received(results, "")
  {
    var data := "";
    var left := results;
    while left != [] && left[0].Got?
      invariant Received(results, "") == Received(left, data)
      decreases |left|
    {
      data := data + left[0].bytes;
      left := left[1..];
      var more := NeedsMore(data);
      if !more {
        return Some(data);
      }
    }
    if left != [] && left[0].Failed? {
      return None;
    }
    return Some(data);
  }

  // ---- splits ----

  function Flatten(parts: seq<string>): string {
    if parts == [] then "" else parts[0] + Flatten(parts[1..])
  }

  function Gots(parts: seq<string>): seq<ReadResult> {
    if parts == [] then [] else [Got(parts[0])] + Gots(parts[1..])
  }

  /** The stream arrives in non-empty reads. */
  ghost predicate Splits(parts: seq<string>, raw: string) {
    Flatten(parts) == raw && forall i | 0 <= i < |parts| :: parts[i] != ""
  }

  lemma FirstPart(raw: string, parts: seq<string>, data: string)
    requires data + Flatten(parts) == raw && parts != [] && forall i | 0 <= i < |parts| :: parts[i] != ""
    ensures data + parts[0] + Flatten(parts[1..]) == raw && data + parts[0] <= raw
    ensures data + parts[0] == raw <==> |parts| == 1
  {
    Associates(data, parts[0], Flatten(parts[1..]));
    if |parts| > 1 {
      assert parts[1..][0] != "";
    }
  }

  lemma ReceivedStep(bytes: string, rest: seq<ReadResult>, data: string)
    ensures Received([Got(bytes)] + rest, data) ==
            if Enough(data + bytes) then Some(data + bytes) else Received(rest, data + bytes)
  {
    assert ([Got(bytes)] + rest)[1..] == rest;
  }

  lemma TurnReceives(raw: string, parts: seq<string>, data: string, more: seq<ReadResult>)
    requires forall p | p <= raw :: Enough(p) <==> p == raw
    requires data + Flatten(parts) == raw && parts != [] && forall i | 0 <= i < |parts| :: parts[i] != ""
    ensures Received(Gots(parts) + more, data) ==
            if |parts| == 1 then Some(raw) else Received(Gots(parts[1..]) + more, data + parts[0])
  {
    FirstPart(raw, parts, data);
    ReceivedStep(parts[0], Gots(parts[1..]) + more, data);
    assert Gots(parts) + more == [Got(parts[0])] + (Gots(parts[1..]) + more);
  }

  /** If the loop stops exactly at the end of the request, every split of it is received whole. */
  lemma {:induction false} SplitsAreReceived(raw: string, parts: seq<string>, data: string, more: seq<ReadResult>)
    requires forall p | p <= raw :: Enough(p) <==> p == raw
    requires data + Flatten(parts) == raw && parts != [] && forall i | 0 <= i < |parts| :: parts[i] != ""
    ensures Received(Gots(parts) + more, data) == Some(raw)
    decreases |parts|
  {
    TurnReceives(raw, parts, data, more);
    FirstPart(raw, parts, data);
    if |parts| > 1 {
      SplitsAreReceived(raw, parts[1..], data + parts[0], more);
    }
  }

  // ---- how many bytes the loop waits for ----

  /** What the text after the literal makes the loop wait for: nothing, if it is not a positive int. */
  function WaitsFor(announced: string): nat {
    match ParseInt(announced, INT_MIN, INT_MAX)
    case Some(n) => if n > 0 then n else 0
    case None => 0
  }

  /** What stands after the literal in the first header line that holds it, wherever in the line. */
  function FirstAnnounced(lines: seq<string>): Option<string> {
    if lines == [] then None
    else
      match Find(lines[0], LITERAL)
      case Some(p) => Some(lines[0][p + |LITERAL|..])
      case None => FirstAnnounced(lines[1..])
  }

  /** The number of body bytes that a header block makes the loop wait for. */
  function Awaited(lines: seq<string>): nat {
    match FirstAnnounced(lines) case Some(text) => WaitsFor(text) case None => 0
  }

  ghost predicate Holds(lines: seq<string>) {
    exists k :: 0 <= k < |lines| && Find(lines[k], LITERAL).Some?
  }

  lemma LiteralIsPlain()
    ensures NoBreaks(LITERAL) && LITERAL != ""
  {
  }

  lemma BodyInIff(data: string, h: int, announced: string)
    requires 0 <= |data| - h - 4 <= INT_MAX
    ensures BodyIn(data, h, announced) <==> |data| - h - 4 >= WaitsFor(announced)
  {
    var x := |data| - h - 4;
    assert (x + 0x8000_0000) % 0x1_0000_0000 == x + 0x8000_0000;
  }

  lemma FoundInFirstLine(line: string, t: string, p: nat)
    requires NoBreaks(line) && Find(line, LITERAL) == Some(p)
    ensures Find(line + CRLF + t, LITERAL) == Some(p)
  {
    var s := line + CRLF + t;
    FindIsFirst(line, LITERAL);
    forall k: nat | k <= p ensures At(s, k, LITERAL) == At(line, k, LITERAL) {
      assert s[k..k + |LITERAL|] == line[k..k + |LITERAL|];
    }
    FoundAt(s, LITERAL, p);
  }

  lemma AnnouncedToLineEnd(line: string, t: string, p: nat)
    requires NoBreaks(line) && p + |LITERAL| <= |line|
    ensures Announced(line + CRLF + t, p) == line[p + |LITERAL|..]
  {
    var s := line + CRLF + t;
    var value := line[p + |LITERAL|..];
    assert s[p + |LITERAL|..] == value + (CRLF + t);
    assert (CRLF + t)[0..2] == CRLF;
    BreakEndsLine(value, CRLF + t, CRLF);
    assert (value + (CRLF + t))[..|value|] == value;
  }

  lemma AnnouncedFurtherOn(a: string, t: string, i: nat)
    requires i + |LITERAL| <= |t|
    ensures |a| + i + |LITERAL| <= |a + t| && Announced(a + t, |a| + i) == Announced(t, i)
  {
    assert (a + t)[|a| + i + |LITERAL|..] == t[i + |LITERAL|..];
  }

  lemma NotInFirstLine(line: string, t: string)
    requires NoBreaks(line) && Find(line, LITERAL) == None
    ensures Find(line + CRLF + t, LITERAL) ==
            match Find(t, LITERAL) case Some(i) => Some(|line + CRLF| + i) case None => None
  {
    LiteralIsPlain();
    FindIsFirst(line, LITERAL);
    forall i: nat | i < |line + CRLF| ensures !At(line + CRLF + t, i, LITERAL) {
      NotAcross(line, t, LITERAL, i);
    }
    FindAfter(line + CRLF, t, LITERAL);
  }

  lemma FirstLineAnnounces(line: string, t: string, p: nat)
    requires NoBreaks(line) && Find(line, LITERAL) == Some(p)
    ensures Find(line + CRLF + t, LITERAL) == Some(p) && p + |LITERAL| <= |line|
    ensures Announced(line + CRLF + t, p) == line[p + |LITERAL|..]
  {
    FoundInFirstLine(line, t, p);
    AnnouncedToLineEnd(line, t, p);
  }

  lemma LaterLineAnnounces(line: string, t: string)
    requires NoBreaks(line) && Find(line, LITERAL) == None && Find(t, LITERAL).Some?
    ensures Find(line + CRLF + t, LITERAL).Some?
    ensures Announced(line + CRLF + t, Find(line + CRLF + t, LITERAL).value) == Announced(t, Find(t, LITERAL).value)
  {
    NotInFirstLine(line, t);
    AnnouncedFurtherOn(line + CRLF, t, Find(t, LITERAL).value);
  }

  lemma HeadAndRest(lines: seq<string>, b: string)
    requires lines != []
    ensures Head(lines) + b == lines[0] + CRLF + (Head(lines[1..]) + b)
  {
  }

  /** The loop reads the number from the first line that holds the literal. */
  lemma {:induction false} FirstHolderAnnounces(lines: seq<string>, b: string)
    requires (forall j | 0 <= j < |lines| :: NoBreaks(lines[j])) && Holds(lines)
    ensures var pos := Find(Head(lines) + b, LITERAL);
            pos.Some? && FirstAnnounced(lines) == Some(Announced(Head(lines) + b, pos.value))
  {
    var t := Head(lines[1..]) + b;
    HeadAndRest(lines, b);
    if Find(lines[0], LITERAL).Some? {
      FirstLineAnnounces(lines[0], t, Find(lines[0], LITERAL).value);
    } else {
      var k :| 0 <= k < |lines| && Find(lines[k], LITERAL).Some?;
      assert lines[1..][k - 1] == lines[k];
      FirstHolderAnnounces(lines[1..], b);
      LaterLineAnnounces(lines[0], t);
    }
  }

  lemma {:induction false} NobodyHolds(lines: seq<string>)
    requires forall j | 0 <= j < |lines| :: Find(lines[j], LITERAL) == None
    ensures FirstAnnounced(lines) == None
  {
    if lines != [] {
      NobodyHolds(lines[1..]);
    }
  }

  // ---- when the loop stops ----

  lemma EnoughIs(data: string, h: nat, pos: nat)
    requires Find(data, BLANK) == Some(h) && Find(data, LITERAL) == Some(pos) && |data| - h - 4 <= INT_MAX
    ensures Enough(data) <==> |data| - h - 4 >= WaitsFor(Announced(data, pos))
  {
    BodyInIff(data, h, Announced(data, pos));
  }

  /** With the whole header block in, the loop stops exactly when the awaited bytes are in. */
  lemma StopsWithBody(lines: seq<string>, b: string)
    requires HeadLines(lines) && Holds(lines) && |b| <= INT_MAX
    ensures Enough(Head(lines) + b) <==> |b| >= Awaited(lines)
  {
    BlankLineEndsHead(lines, b);
    FirstHolderAnnounces(lines, b);
    EnoughIs(Head(lines) + b, |Head(lines)| - 4, Find(Head(lines) + b, LITERAL).value);
  }

  lemma EnoughWithoutLiteral(data: string)
    requires Find(data, BLANK).Some? && Find(data, LITERAL).None?
    ensures Enough(data)
  {
  }

  lemma StopsAfterHead(lines: seq<string>)
    requires HeadLines(lines) && !Holds(lines)
    ensures Enough(Head(lines)) && Awaited(lines) == 0
  {
    LiteralIsPlain();
    FoundInNoLine(lines, LITERAL);
    BlankLineEndsBareHead(lines);
    EnoughWithoutLiteral(Head(lines));
    NobodyHolds(lines);
  }

  lemma PrefixOfWhole(head: string, body: string, p: string) returns (b: string)
    requires p <= head + body && |head| <= |p|
    ensures p == head + b && b <= body
  {
    b := p[|head|..];
    assert p == p[..|head|] + b;
    assert p[..|head|] == (head + body)[..|head|] == head;
    assert b == body[..|b|];
  }

  lemma StopsAtTheEnd(lines: seq<string>, body: string, p: string)
    requires HeadLines(lines) && |body| <= INT_MAX && Awaited(lines) == |body| && p <= Head(lines) + body
    ensures Enough(p) <==> p == Head(lines) + body
  {
    var head := Head(lines);
    BlankLineEndsHead(lines, body);
    if |p| < |head| {
      FindInPrefix(head + body, p, BLANK, |head| - 4);
    } else {
      var b := PrefixOfWhole(head, body, p);
      if Holds(lines) {
        StopsWithBody(lines, b);
      } else {
        StopsAfterHead(lines);
        AppendNothing(head);
      }
    }
  }

  // ---- exactly when framing does not depend on fragmentation ----

  /** sizeof(buffer) of the loop: the most that one read can return. */
  const READ_SIZE: nat := 8192

  /** The stream arrives in non-empty reads of at most `limit` bytes. */
  ghost predicate Reads(parts: seq<string>, raw: string, limit: nat) {
    Splits(parts, raw) && forall i | 0 <= i < |parts| :: |parts[i]| <= limit
  }

  /** However the bytes are cut into reads that the buffer can hold, and whatever else would arrive, the
      loop receives them all and nothing more. */
  ghost predicate ReceivedWhole(raw: string, limit: nat) {
    forall parts, more :: Reads(parts, raw, limit) ==> Received(Gots(parts) + more, "") == Some(raw)
  }

  lemma WholeIsReceived(lines: seq<string>, body: string, parts: seq<string>, more: seq<ReadResult>)
    requires HeadLines(lines) && |body| <= INT_MAX && Awaited(lines) == |body| && Splits(parts, Head(lines) + body)
    ensures Received(Gots(parts) + more, "") == Some(Head(lines) + body)
  {
    var raw := Head(lines) + body;
    forall p | p <= raw ensures Enough(p) <==> p == raw {
      StopsAtTheEnd(lines, body, p);
    }
    HeadLength(lines);
    assert "" + Flatten(parts) == raw;
    SplitsAreReceived(raw, parts, "", more);
  }

  /** One byte at a time. */
  function Singles(s: string): seq<string> {
    if s == "" then [] else [[s[0]]] + Singles(s[1..])
  }

  lemma {:induction false} SinglesSplit(s: string, limit: nat)
    requires limit > 0
    ensures Reads(Singles(s), s, limit)
  {
    if s != "" {
      SinglesSplit(s[1..], limit);
      assert Singles(s)[1..] == Singles(s[1..]);
      assert [s[0]] + s[1..] == s;
    }
  }

  lemma SinglesStep(s: string, data: string, more: seq<ReadResult>)
    requires s != ""
    ensures Received(Gots(Singles(s)) + more, data) ==
            if Enough(data + [s[0]]) then Some(data + [s[0]]) else Received(Gots(Singles(s[1..])) + more, data + [s[0]])
    ensures data + [s[0]] + s[1..] == data + s
  {
    SinglesHead(s, more);
    ReceivedStep([s[0]], Gots(Singles(s[1..])) + more, data);
    assert [s[0]] + s[1..] == s;
    Associates(data, [s[0]], s[1..]);
  }

  lemma SinglesHead(s: string, more: seq<ReadResult>)
    requires s != ""
    ensures Gots(Singles(s)) + more == [Got([s[0]])] + (Gots(Singles(s[1..])) + more)
  {
    GotsHead([s[0]], Singles(s[1..]));
    HeadThenRest(Got([s[0]]), Gots(Singles(s[1..])), more);
  }

  lemma GotsHead(part: string, parts: seq<string>)
    ensures Gots([part] + parts) == [Got(part)] + Gots(parts)
  {
    assert ([part] + parts)[1..] == parts;
  }

  lemma HeadThenRest<T>(x: T, a: seq<T>, b: seq<T>)
    ensures ([x] + a) + b == [x] + (a + b)
  {
  }

  /** Byte by byte, the loop stops no later than at a prefix that is enough. */
  lemma {:induction false} SinglesStop(raw: string, s: string, data: string, n: nat, more: seq<ReadResult>)
    requires data + s == raw && |data| < n <= |raw| && Enough(raw[..n])
    ensures var r := Received(Gots(Singles(s)) + more, data);
            r.Some? && |r.value| <= n
    decreases |s|
  {
    SinglesStep(s, data, more);
    if |data| + 1 < n {
      SinglesStop(raw, s[1..], data + [s[0]], n, more);
    } else {
      assert raw[..n] == data + [s[0]];
    }
  }

  /** Byte by byte, a request that is never enough is not what the loop returns when reading then fails. */
  lemma {:induction false} SinglesMiss(raw: string, s: string, data: string)
    requires data + s == raw && !Enough(raw)
    ensures Received(Gots(Singles(s)) + [Failed], data) != Some(raw)
    decreases |s|
  {
    if s == "" {
      assert Gots(Singles(s)) + [Failed] == [Failed];
    } else {
      SinglesStep(s, data, [Failed]);
      SinglesMiss(raw, s[1..], data + [s[0]]);
    }
  }

  lemma EarlyIsNotWhole(raw: string, n: nat, limit: nat)
    requires limit > 0 && 0 < n < |raw| && Enough(raw[..n])
    ensures !ReceivedWhole(raw, limit)
  {
    SinglesSplit(raw, limit);
    assert "" + raw == raw;
    SinglesStop(raw, raw, "", n, []);
    assert Reads(Singles(raw), raw, limit) && Received(Gots(Singles(raw)) + [], "") != Some(raw);
  }

  lemma NeverIsNotWhole(raw: string, limit: nat)
    requires limit > 0 && !Enough(raw)
    ensures !ReceivedWhole(raw, limit)
  {
    SinglesSplit(raw, limit);
    assert "" + raw == raw;
    SinglesMiss(raw, raw, "");
    assert Reads(Singles(raw), raw, limit) && Received(Gots(Singles(raw)) + [Failed], "") != Some(raw);
  }

  /** If fewer bytes are awaited than the body has, the loop can stop early. */
  lemma TooFewAwaited(lines: seq<string>, body: string, limit: nat)
    requires HeadLines(lines) && |body| <= INT_MAX && Awaited(lines) < |body| && limit > 0
    ensures !ReceivedWhole(Head(lines) + body, limit)
  {
    var m := Awaited(lines);
    AwaitedIsEnough(lines, body[..m]);
    HeadLength(lines);
    assert (Head(lines) + body)[..|Head(lines)| + m] == Head(lines) + body[..m];
    EarlyIsNotWhole(Head(lines) + body, |Head(lines)| + m, limit);
  }

  lemma AwaitedIsEnough(lines: seq<string>, b: string)
    requires HeadLines(lines) && |b| == Awaited(lines) <= INT_MAX
    ensures Enough(Head(lines) + b)
  {
    if Holds(lines) {
      StopsWithBody(lines, b);
    } else {
      StopsAfterHead(lines);
      AppendNothing(Head(lines));
    }
  }

  /** If more bytes are awaited, the loop goes on after the end of the request. */
  lemma TooManyAwaited(lines: seq<string>, body: string, limit: nat)
    requires HeadLines(lines) && |body| <= INT_MAX && Awaited(lines) > |body| && limit > 0
    ensures !ReceivedWhole(Head(lines) + body, limit)
  {
    if !Holds(lines) {
      StopsAfterHead(lines);
    }
    StopsWithBody(lines, body);
    NeverIsNotWhole(Head(lines) + body, limit);
  }

  /** For every request and every size of the read buffer: it is received whole, however it is cut into
      reads that fit the buffer, exactly when the first header line that holds "Content-Length:"
      announces the length of its body (or, for a request without a body, announces no positive number). */
  lemma EverySplitReceivedIff(w: Wire, limit: nat)
    requires WireOk(w) && |w.body| <= INT_MAX && limit > 0
    ensures ReceivedWhole(Written(w), limit) <==> Awaited(Lines(w)) == |w.body|
  {
    LinesAreHeadLines(w);
    if Awaited(Lines(w)) == |w.body| {
      forall parts, more | Reads(parts, Written(w), limit)
        ensures Received(Gots(parts) + more, "") == Some(Written(w))
      {
        WholeIsReceived(Lines(w), w.body, parts, more);
      }
    } else if Awaited(Lines(w)) < |w.body| {
      TooFewAwaited(Lines(w), w.body, limit);
    } else {
      TooManyAwaited(Lines(w), w.body, limit);
    }
  }

  // ---- a request with one length field ----

  /** Field k is the only one that means content-length, in whatever case it is spelled, and it gives
      the body's length. */
  ghost predicate OneLength(w: Wire, k: nat)
    requires WireOk(w)
  {
    && k < |w.fields| && SameName(w.fields[k].0, LENGTH_FIELD) && w.fields[k].1 == ToString(|w.body|)
    && |w.body| <= INT_MAX
    && forall j | 0 <= j < |w.fields| && j != k :: !SameName(w.fields[j].0, LENGTH_FIELD)
  }

  /** The start line and the first n fields do not hold the literal. */
  ghost predicate SilentBefore(w: Wire, n: nat)
    requires WireOk(w)
  {
    && Find(StartLine(w.verb, Target(w), w.version), LITERAL) == None
    && forall j | 0 <= j < |w.fields| && j < n :: Find(FieldLine(w.fields[j]), LITERAL) == None
  }

  lemma {:induction false} FirstSpeakerDecides(lines: seq<string>, k: nat)
    requires k < |lines| && forall j | 0 <= j < k :: Find(lines[j], LITERAL) == None
    ensures FirstAnnounced(lines) == FirstAnnounced(lines[k..])
  {
    if k > 0 {
      FirstSpeakerDecides(lines[1..], k - 1);
      assert lines[1..][k - 1..] == lines[k..];
    }
  }

  lemma SilentLinesHideLiteral(w: Wire, n: nat)
    requires WireOk(w) && SilentBefore(w, n) && n <= |w.fields|
    ensures forall j | 0 <= j < |Lines(w)| && j <= n :: Find(Lines(w)[j], LITERAL) == None
  {
    LinesAreHeadLines(w);
    forall j | 0 <= j < |Lines(w)| && j <= n ensures Find(Lines(w)[j], LITERAL) == None {
      if j > 0 {
        assert Lines(w)[j] == FieldLine(w.fields[j - 1]);
      }
    }
  }

  lemma SpacedNumberReads(n: nat, low: int, high: int)
    requires low <= n <= high
    ensures ParseInt(" " + ToString(n), low, high) == Some(n)
  {
    ParsePrintedWhole(n, low, high);
    assert (" " + ToString(n))[1..] == ToString(n);
    assert SkipSpaces(" " + ToString(n)) == SkipSpaces(ToString(n));
  }

  lemma WaitsForNumber(n: nat)
    requires n <= INT_MAX
    ensures WaitsFor(" " + ToString(n)) == n
  {
    SpacedNumberReads(n, INT_MIN, INT_MAX);
  }

  lemma AwaitedByFirst(lines: seq<string>, p: nat)
    requires lines != [] && Find(lines[0], LITERAL) == Some(p)
    ensures FirstAnnounced(lines) == Some(lines[0][p + |LITERAL|..])
  {
  }

  /** A field named by a prefix and the literal makes the loop wait for its number. */
  lemma FieldAnnounces(prefix: string, n: nat)
    requires n <= INT_MAX && Without(prefix, ':')
    ensures var line := FieldLine((prefix + "Content-Length", ToString(n)));
            Find(line, LITERAL) == Some(|prefix|) && line[|prefix| + |LITERAL|..] == " " + ToString(n)
  {
    var line := FieldLine((prefix + "Content-Length", ToString(n)));
    var tail := LITERAL + (" " + ToString(n));
    assert line == prefix + tail;
    assert tail[..|LITERAL|] == LITERAL;
    AtShift(prefix, tail, LITERAL, 0);
    forall k: nat | k < |prefix| ensures !At(line, k, LITERAL) {
      AtMeans(line, k, LITERAL, 14);
      if k + 14 < |prefix| {
        assert line[k + 14] == prefix[k + 14];
      } else {
        assert line[k + 14] == tail[k + 14 - |prefix|] == LITERAL[k + 14 - |prefix|];
      }
    }
    FoundAt(line, LITERAL, |prefix|);
    assert line[|prefix| + |LITERAL|..] == " " + ToString(n);
  }

  lemma SpeakingFieldDecides(w: Wire, j: nat, prefix: string, n: nat)
    requires WireOk(w) && j < |w.fields| && SilentBefore(w, j) && n <= INT_MAX
    requires w.fields[j] == (prefix + "Content-Length", ToString(n)) && Without(prefix, ':')
    ensures Awaited(Lines(w)) == n
  {
    LinesAreHeadLines(w);
    SilentLinesHideLiteral(w, j);
    FirstSpeakerDecides(Lines(w), j + 1);
    FieldAnnounces(prefix, n);
    assert Lines(w)[j + 1..][0] == FieldLine(w.fields[j]);
    AwaitedByFirst(Lines(w)[j + 1..], |prefix|);
    WaitsForNumber(n);
  }

  lemma PrintedHasNoSpace(n: nat)
    ensures DropSpaces(ToString(n)) == ToString(n)
  {
    DigitsRoundTrip(n);
    assert Digits(n)[0] in Digits(n);
  }

  lemma {:induction false} DeclaredLength(fields: seq<(string, string)>, k: nat, acc: Fields, n: nat)
    requires n <= INT_MAX
    requires k < |fields| ==> Lower(fields[k].0) == LENGTH_FIELD && fields[k].1 == ToString(n)
    requires k >= |fields| ==> acc.length == n
    requires forall j | 0 <= j < |fields| && j != k :: Lower(fields[j].0) != LENGTH_FIELD
    ensures FieldMap(fields, acc).length == n
    decreases |fields|
  {
    if fields != [] {
      ParsePrintedWhole(n, INT_MIN, INT_MAX);
      PrintedHasNoSpace(n);
      DeclaredLength(fields[1..], if k == 0 then |fields| else k - 1, AddField(acc, fields[0].0, DropSpaces(fields[0].1)), n);
    }
  }

  lemma WholeParses(w: Wire, k: nat, lenient: Lenient)
    requires WireOk(w) && OneLength(w, k)
    ensures ReadsBack(w, Parsed(Written(w), lenient)) && Parsed(Written(w), lenient).body == w.body
  {
    RequestRoundTrip(w, lenient);
    FieldMapIsHeaders(w.fields);
    LengthIsDeclared(w, k);
    WholeBody(w.body, |w.body|);
  }

  lemma LengthIsDeclared(w: Wire, k: nat)
    requires WireOk(w) && OneLength(w, k)
    ensures FieldMap(w.fields, Fields(map[], 0)).length == |w.body|
  {
    LengthFieldIsLower();
    forall j | 0 <= j < |w.fields| ensures Lower(w.fields[j].0) == LENGTH_FIELD <==> SameName(w.fields[j].0, LENGTH_FIELD) {
      LowerIff(w.fields[j].0, LENGTH_FIELD);
    }
    DeclaredLength(w.fields, k, Fields(map[], 0), |w.body|);
  }

  lemma WholeBody(body: string, length: int)
    requires length == |body|
    ensures (if length <= 0 then "" else if length <= |body| then body[..length] else body) == body
  {
  }

  /** Framing does not depend on fragmentation: however a request is cut into reads whose one length
      field is spelled "Content-Length" and is the first line with that literal, the loop receives
      exactly its bytes, and parsing gives its parts and its whole body. */
  lemma FramingIgnoresFragmentation(w: Wire, k: nat, parts: seq<string>, more: seq<ReadResult>, lenient: Lenient)
    requires WireOk(w) && OneLength(w, k) && w.fields[k].0 == "Content-Length" && SilentBefore(w, k)
    requires Splits(parts, Written(w))
    ensures Received(Gots(parts) + more, "") == Some(Written(w))
    ensures ReadsBack(w, Parsed(Written(w), lenient)) && Parsed(Written(w), lenient).body == w.body
  {
    LiteralFieldDecides(w, k);
    LinesAreHeadLines(w);
    WholeIsReceived(Lines(w), w.body, parts, more);
    WholeParses(w, k, lenient);
  }

  lemma LiteralFieldDecides(w: Wire, k: nat)
    requires WireOk(w) && OneLength(w, k) && w.fields[k].0 == "Content-Length" && SilentBefore(w, k)
    ensures Awaited(Lines(w)) == |w.body|
  {
    assert "" + "Content-Length" == "Content-Length";
    SpeakingFieldDecides(w, k, "", |w.body|);
  }

  // ---- the two ways it goes wrong ----

  lemma DigitsHaveNoColon(n: nat)
    ensures Without(ToString(n), ':')
  {
    DigitsRoundTrip(n);
    forall i | 0 <= i < |ToString(n)| ensures ToString(n)[i] != ':' {
      assert ToString(n)[i] in Digits(n);
    }
  }

  /** A length field under another spelling does not hold the literal. */
  lemma OtherSpellingHidesLiteral(name: string, n: nat)
    requires SameName(name, LENGTH_FIELD) && name != "Content-Length" && Without(name, ':')
    ensures Find(FieldLine((name, ToString(n))), LITERAL) == None
  {
    var line := FieldLine((name, ToString(n)));
    DigitsHaveNoColon(n);
    forall i: nat ensures !At(line, i, LITERAL) {
      AtMeans(line, i, LITERAL, 14);
      if i == 0 {
        assert |line| >= 15 ==> line[0..15] == name + ":";
        assert (name + ":")[..14] == name;
        assert LITERAL[..14] == "Content-Length";
      } else if i + 14 < |line| {
        assert line[i + 14] != ':' by {
          assert i + 14 == 15 ==> line[i + 14] == ' ';
          assert i + 14 > 15 ==> line[i + 14] == ToString(n)[i + 14 - 16];
        }
      }
    }
    FoundNowhere(line, LITERAL);
  }

  lemma OtherSpellingHidesAll(w: Wire, k: nat)
    requires WireOk(w) && OneLength(w, k) && w.fields[k].0 != "Content-Length" && SilentBefore(w, k)
    requires forall j | k < j < |w.fields| :: Find(FieldLine(w.fields[j]), LITERAL) == None
    ensures Awaited(Lines(w)) == 0
  {
    OtherSpellingHidesLiteral(w.fields[k].0, |w.body|);
    assert FieldLine(w.fields[k]) == FieldLine((w.fields[k].0, ToString(|w.body|)));
    LinesAreHeadLines(w);
    SilentLinesHideLiteral(w, |w.fields|);
    NobodyHolds(Lines(w));
  }

  /** The spelling: when no other line holds the literal, a request with a body is received whole,
      however it is cut, exactly when its length field is spelled "Content-Length", although field
      names are case-insensitive. */
  lemma SpellingDecides(w: Wire, k: nat, limit: nat)
    requires limit > 0 && WireOk(w) && OneLength(w, k) && SilentBefore(w, k) && w.body != ""
    requires forall j | k < j < |w.fields| :: Find(FieldLine(w.fields[j]), LITERAL) == None
    ensures ReceivedWhole(Written(w), limit) <==> w.fields[k].0 == "Content-Length"
  {
    EverySplitReceivedIff(w, limit);
    if w.fields[k].0 == "Content-Length" {
      LiteralFieldDecides(w, k);
    } else {
      OtherSpellingHidesAll(w, k);
    }
  }

  /** The prefix: a field such as "X-Content-Length" that comes first is taken for the length field. */
  lemma PrefixedFieldDecides(w: Wire, j: nat, prefix: string, n: nat, limit: nat)
    requires limit > 0 && WireOk(w) && j < |w.fields| && SilentBefore(w, j) && n <= INT_MAX && |w.body| <= INT_MAX
    requires w.fields[j] == (prefix + "Content-Length", ToString(n))
    ensures ReceivedWhole(Written(w), limit) <==> n == |w.body|
  {
    assert Without(prefix, ':') by {
      assert FieldOk(w.fields[j]);
      forall i | 0 <= i < |prefix| ensures prefix[i] != ':' {
        assert (prefix + "Content-Length")[i] == prefix[i];
      }
    }
    SpeakingFieldDecides(w, j, prefix, n);
    EverySplitReceivedIff(w, limit);
  }

  /** A small POST whose length field is spelled in lower case. */
  const LowerCasePost: Wire := Wire("POST", "/", [], "HTTP/1.1", [(LENGTH_FIELD, "1")], "x")

  lemma {:induction false} NoLiteralWithout(s: string, c: char, j: nat)
    requires j < |LITERAL| && LITERAL[j] == c && Without(s, c)
    ensures Find(s, LITERAL) == None
  {
    forall k: nat ensures !At(s, k, LITERAL) {
      AtMeans(s, k, LITERAL, j);
    }
    FoundNowhere(s, LITERAL);
  }

  lemma LowerCasePostFits(w: Wire)
    requires w == LowerCasePost
    ensures WireOk(w) && w.pairs == [] && Without(w.verb, '-') && Without(w.path, '-') && Without(w.version, '-')
  {
    assert FieldOk((LENGTH_FIELD, "1"));
  }

  lemma LowerCasePostLength(w: Wire)
    requires w == LowerCasePost
    ensures w.fields == [(LENGTH_FIELD, ToString(|w.body|))] && 0 < |w.body| <= INT_MAX
  {
    OneIsPrinted();
  }

  lemma OneIsPrinted()
    ensures ToString(1) == "1"
  {
    assert Digits(1) == [Digit(1)] == ['1'];
  }

  lemma StartLineIsSilent(w: Wire)
    requires WireOk(w) && w.pairs == [] && Without(w.verb, '-') && Without(w.path, '-') && Without(w.version, '-')
    ensures SilentBefore(w, 0)
  {
    var front := w.verb + " " + w.path;
    var line := StartLine(w.verb, w.path, w.version);
    assert Without(front, '-');
    assert line == front + " " + w.version;
    NoLiteralWithout(line, '-', 7);
  }

  /** Any request with one field, in another spelling, is cut. */
  lemma OtherSpellingIsCut(w: Wire, name: string)
    requires WireOk(w) && w.pairs == [] && Without(w.verb, '-') && Without(w.path, '-') && Without(w.version, '-')
    requires w.fields == [(name, ToString(|w.body|))] && 0 < |w.body| <= INT_MAX
    requires SameName(name, LENGTH_FIELD) && name != "Content-Length"
    ensures !ReceivedWhole(Written(w), READ_SIZE)
  {
    StartLineIsSilent(w);
    SpellingDecides(w, 0, READ_SIZE);
  }

  lemma LengthFieldIsLower()
    ensures LowerCase(LENGTH_FIELD) && SameName(LENGTH_FIELD, LENGTH_FIELD) && LENGTH_FIELD != "Content-Length"
  {
    var s := LENGTH_FIELD;
    assert LowerCase(s);
  }

  /** It can be received without its body, read as the loop reads. */
  lemma LowerCasePostIsCut(w: Wire)
    requires w == LowerCasePost
    ensures WireOk(w) && !ReceivedWhole(Written(w), READ_SIZE)
  {
    LowerCasePostFits(w);
    LowerCasePostLength(w);
    LengthFieldIsLower();
    OtherSpellingIsCut(w, LENGTH_FIELD);
  }

  // ---- when the connection ends first ----

  /** If no read makes it enough, a client that closes has its bytes handed on as they are, and a read that
      fails loses them. */
  lemma {:induction false} EndedEarly(parts: seq<string>, data: string)
    requires forall k | 0 < k <= |parts| :: !Enough(data + Flatten(parts[..k]))
    ensures Received(Gots(parts) + [Closed], data) == Some(data + Flatten(parts))
    ensures Received(Gots(parts), data) == Some(data + Flatten(parts))
    ensures Received(Gots(parts) + [Failed], data) == None
    decreases |parts|
  {
    if parts == [] {
      AppendNothing(data);
      assert Gots(parts) + [Closed] == [Closed] && Gots(parts) + [Failed] == [Failed];
    } else {
      var more := data + parts[0];
      assert parts[..1] == [parts[0]] && Flatten([parts[0]]) == parts[0] + "" == parts[0];
      assert !Enough(data + Flatten(parts[..1]));
      forall k | 0 < k <= |parts[1..]| ensures !Enough(more + Flatten(parts[1..][..k])) {
        assert parts[..k + 1][1..] == parts[1..][..k];
        Associates(data, parts[0], Flatten(parts[1..][..k]));
        assert !Enough(data + Flatten(parts[..k + 1]));
      }
      EndedEarly(parts[1..], more);
      Associates(data, parts[0], Flatten(parts[1..]));
      EndSteps(parts, data);
    }
  }

  lemma EndSteps(parts: seq<string>, data: string)
    requires parts != [] && !Enough(data + parts[0])
    ensures Received(Gots(parts), data) == Received(Gots(parts[1..]), data + parts[0])
    ensures forall e :: Received(Gots(parts) + [e], data) == Received(Gots(parts[1..]) + [e], data + parts[0])
  {
    ReceivedStep(parts[0], Gots(parts[1..]), data);
    forall e ensures Received(Gots(parts) + [e], data) == Received(Gots(parts[1..]) + [e], data + parts[0]) {
      ReceivedStep(parts[0], Gots(parts[1..]) + [e], data);
      assert Gots(parts) + [e] == [Got(parts[0])] + (Gots(parts[1..]) + [e]);
    }
  }
}
