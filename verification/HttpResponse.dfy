/** HttpParser::build_response of src/http_parser.cpp, and how a receiver takes it apart
    (tests/concurrent_test.cpp): at the first CRLFCRLF. */
module HttpResponding {
  import opened Common
  import opened OrderedKeys
  import opened Text
  import opened HttpText
  import opened HttpParsing

  datatype Response = Response(code: int, text: string, headers: map<string, string>, body: string)

  const LENGTH: string := "Content-Length"
  const CONNECTION: string := "Connection"

  function StatusLine(r: Response): string {
    "HTTP/1.1 " + ToString(r.code) + " " + r.text
  }

  ghost function HeaderFields(keys: seq<string>, headers: map<string, string>): seq<(string, string)>
    requires forall k | k in keys :: k in headers
  {
    if keys == [] then [] else [(keys[0], headers[keys[0]])] + HeaderFields(keys[1..], headers)
  }

  /** A default that is added unless the caller set the header. */
  function Default(present: bool, name: string, value: string): seq<(string, string)> {
    if present then [] else [(name, value)]
  }

  /** What the code adds when the caller set no such header. */
  function Defaults(r: Response): seq<(string, string)> {
    Default(LENGTH in r.headers, LENGTH, ToString(|r.body|)) + Default(CONNECTION in r.headers, CONNECTION, "close")
  }

  ghost function AllFields(r: Response): seq<(string, string)> {
    SortedCovers(r.headers.Keys);
    HeaderFields(Sorted(r.headers.Keys), r.headers) + Defaults(r)
  }

  ghost function ResponseLines(r: Response): seq<string> {
    [StatusLine(r)] + FieldLines(AllFields(r))
  }

  ghost function Sent(r: Response): string {
    Head(ResponseLines(r)) + r.body
  }

  // ---- the writer ----

  /** The lines so far, each with its CRLF. */
  function Block(lines: seq<string>): string {
    if lines == [] then "" else lines[0] + CRLF + Block(lines[1..])
  }

  lemma {:induction false} HeadIsBlock(lines: seq<string>)
    ensures Head(lines) == Block(lines) + CRLF
  {
    if lines != [] {
      HeadIsBlock(lines[1..]);
      Associates(lines[0] + CRLF, Block(lines[1..]), CRLF);
    }
  }

  lemma {:induction false} BlockOfSum(a: seq<string>, b: seq<string>)
    ensures Block(a + b) == Block(a) + Block(b)
  {
    if a == [] {
      assert a + b == b;
    } else {
      assert (a + b)[1..] == a[1..] + b;
      BlockOfSum(a[1..], b);
      Associates(a[0] + CRLF, Block(a[1..]), Block(b));
    }
  }

  lemma {:induction false} FieldLinesOfSum(a: seq<(string, string)>, b: seq<(string, string)>)
    ensures FieldLines(a + b) == FieldLines(a) + FieldLines(b)
  {
    if a == [] {
      assert a + b == b;
    } else {
      assert (a + b)[1..] == a[1..] + b;
      FieldLinesOfSum(a[1..], b);
    }
  }

  lemma BlockStep(text: string, rest: set<string>, key: string, headers: map<string, string>)
    requires IsLeast(key, rest) && rest <= headers.Keys
    ensures forall k | k in Sorted(rest) :: k in headers
    ensures forall k | k in Sorted(rest - {key}) :: k in headers
    ensures text + Block(FieldLines(HeaderFields(Sorted(rest), headers))) ==
            text + (FieldLine((key, headers[key])) + CRLF) + Block(FieldLines(HeaderFields(Sorted(rest - {key}), headers)))
  {
    SortedCovers(rest);
    SortedCovers(rest - {key});
    SortedStep(rest, key);
    assert Sorted(rest)[1..] == Sorted(rest - {key});
    var field := (key, headers[key]);
    var more := HeaderFields(Sorted(rest - {key}), headers);
    assert HeaderFields(Sorted(rest), headers) == [field] + more;
    assert ([field] + more)[1..] == more;
    assert FieldLines([field] + more) == [FieldLine(field)] + FieldLines(more);
    assert ([FieldLine(field)] + FieldLines(more))[1..] == FieldLines(more);
    Associates(text, FieldLine(field) + CRLF, Block(FieldLines(more)));
  }

  /** The loop over the caller's headers. */
  method WriteHeaders(headers: map<string, string>) returns (text: string)
    ensures forall k | k in Sorted(headers.Keys) :: k in headers
    ensures text == Block(FieldLines(HeaderFields(Sorted(headers.Keys), headers)))
  {
    text := "";
    var rest := headers.Keys;
    SortedCovers(headers.Keys);
    ghost var whole := Block(FieldLines(HeaderFields(Sorted(headers.Keys), headers)));
    assert "" + whole == whole;
    while rest != {}
      invariant rest <= headers.Keys
      invariant forall k | k in Sorted(rest) :: k in headers
      invariant text + Block(FieldLines(HeaderFields(Sorted(rest), headers))) == whole
      decreases |rest|
    {
      LeastExists(rest);
      var key :| IsLeast(key, rest);
      BlockStep(text, rest, key, headers);
      text := text + (key + ": " + headers[key] + CRLF);
      rest := rest - {key};
    }
    assert text + "" == text;
  }

  method BuildResponse(r: Response) returns (text: string)
    ensures text == Sent(r)
  {
    text := "HTTP/1.1 " + ToString(r.code) + " " + r.text + CRLF;
    var headers := WriteHeaders(r.headers);
    text := text + headers;
    var extra := "";
    if LENGTH !in r.headers {
      extra := LENGTH + ": " + ToString(|r.body|) + CRLF;
    }
    if CONNECTION !in r.headers {
      extra := extra + (CONNECTION + ": " + "close" + CRLF);
    }
    DefaultsBlock(r);
    SentIsBlocks(r, headers, extra);
    text := text + extra + CRLF;
    text := text + r.body;
  }

  lemma DefaultBlock(present: bool, name: string, value: string)
    ensures Block(FieldLines(Default(present, name, value))) == if present then "" else name + ": " + value + CRLF
  {
    if !present {
      var fields := [(name, value)];
      assert fields[1..] == [];
      assert FieldLines(fields) == [FieldLine(fields[0])];
      assert [FieldLine(fields[0])][1..] == [];
      assert Block([FieldLine(fields[0])]) == FieldLine(fields[0]) + CRLF + "";
    }
  }

  lemma DefaultsBlock(r: Response)
    ensures Block(FieldLines(Defaults(r))) ==
            (if LENGTH in r.headers then "" else LENGTH + ": " + ToString(|r.body|) + CRLF)
            + (if CONNECTION in r.headers then "" else CONNECTION + ": " + "close" + CRLF)
  {
    var a := Default(LENGTH in r.headers, LENGTH, ToString(|r.body|));
    var b := Default(CONNECTION in r.headers, CONNECTION, "close");
    FieldLinesOfSum(a, b);
    BlockOfSum(FieldLines(a), FieldLines(b));
    DefaultBlock(LENGTH in r.headers, LENGTH, ToString(|r.body|));
    DefaultBlock(CONNECTION in r.headers, CONNECTION, "close");
  }

  lemma SentIsBlocks(r: Response, headers: string, extra: string)
    requires forall k | k in Sorted(r.headers.Keys) :: k in r.headers
    requires headers == Block(FieldLines(HeaderFields(Sorted(r.headers.Keys), r.headers)))
    requires extra == Block(FieldLines(Defaults(r)))
    ensures Sent(r) == StatusLine(r) + CRLF + headers + extra + CRLF + r.body
  {
    var fields := HeaderFields(Sorted(r.headers.Keys), r.headers);
    FieldLinesOfSum(fields, Defaults(r));
    BlockOfSum(FieldLines(fields), FieldLines(Defaults(r)));
    var lines := FieldLines(AllFields(r));
    assert ResponseLines(r)[1..] == lines;
    assert Block(ResponseLines(r)) == StatusLine(r) + CRLF + (headers + extra);
    HeadIsBlock(ResponseLines(r));
    Associates(StatusLine(r) + CRLF, headers, extra);
  }

  // ---- taking a response apart ----

  /** Header names and values and the status text hold no line break, and names no colon. */
  ghost predicate ResponseOk(r: Response) {
    && NoBreaks(r.text)
    && forall k | k in r.headers :: NoBreaks(k) && Without(k, ':') && NoBreaks(r.headers[k])
  }

  /** A receiver's view: the header block before the first CRLFCRLF, and everything after it. */
  function Split(text: string): Option<(string, string)> {
    match Find(text, BLANK)
    case None => None
    case Some(h) => Some((text[..h], text[h + 4..]))
  }

  /** The name and value of a header line: up to the colon, and from after the blank. */
  function ReadField(line: string): Option<(string, string)> {
    var colon := IndexOf(line, ':');
    if colon + 2 <= |line| then Some((line[..colon], line[colon + 2..])) else None
  }

  /** The header lines of a block, last one wins, read line by line as the parser reads requests. */
  function ReadHeaders(s: string, acc: map<string, string>): map<string, string>
    decreases |s|
  {
    if s == "" then acc
    else
      var (line, rest) := GetLine(s);
      match ReadField(DropCR(line))
      case None => acc
      case Some((name, value)) => ReadHeaders(rest, acc[name := value])
  }

  lemma FieldReads(name: string, value: string)
    requires Without(name, ':')
    ensures ReadField(FieldLine((name, value))) == Some((name, value))
  {
    var line := FieldLine((name, value));
    assert line[|name|] == ':' && line[..|name|] == name && line[|name| + 2..] == value;
    IndexOfFirst(line, ':', |name|);
  }

  lemma {:induction false} BlockReads(fields: seq<(string, string)>, acc: map<string, string>)
    requires forall i | 0 <= i < |fields| :: NoBreaks(fields[i].0) && Without(fields[i].0, ':') && NoBreaks(fields[i].1)
    ensures ReadHeaders(Block(FieldLines(fields)), acc) == ParamMap(fields, acc)
    decreases |fields|
  {
    if fields != [] {
      var (name, value) := fields[0];
      var line := FieldLine(fields[0]);
      var rest := Block(FieldLines(fields[1..]));
      assert FieldLines(fields)[1..] == FieldLines(fields[1..]);
      assert Block(FieldLines(fields)) == line + CRLF + rest;
      assert NoBreaks(line);
      GetLineReads(line, rest);
      assert DropCR(line + "\r") == line;
      FieldReads(name, value);
      BlockReads(fields[1..], acc[name := value]);
    }
  }

  lemma {:induction false} FieldsOfMap(keys: seq<string>, headers: map<string, string>, acc: map<string, string>)
    requires forall k | k in keys :: k in headers
    ensures var m := ParamMap(HeaderFields(keys, headers), acc);
            forall k :: (k in m <==> k in keys || k in acc) && (k in m ==> m[k] == if k in keys then headers[k] else acc[k])
    decreases |keys|
  {
    if keys != [] {
      assert keys[0] in keys;
      FieldsOfMap(keys[1..], headers, acc[keys[0] := headers[keys[0]]]);
    }
  }

  lemma {:induction false} ParamMapOfSum(a: seq<(string, string)>, b: seq<(string, string)>, acc: map<string, string>)
    ensures ParamMap(a + b, acc) == ParamMap(b, ParamMap(a, acc))
    decreases |a|
  {
    if a == [] {
      assert a + b == b;
    } else {
      assert (a + b)[1..] == a[1..] + b;
      ParamMapOfSum(a[1..], b, acc[a[0].0 := a[0].1]);
    }
  }

  /** The headers a receiver sees: the caller's, and the two defaults where the caller set none. */
  function Effective(r: Response): map<string, string> {
    var m := if LENGTH in r.headers then r.headers else r.headers[LENGTH := ToString(|r.body|)];
    if CONNECTION in r.headers then m else m[CONNECTION := "close"]
  }

  lemma DefaultInMap(present: bool, name: string, value: string, m: map<string, string>)
    ensures ParamMap(Default(present, name, value), m) == if present then m else m[name := value]
  {
    if !present {
      assert [(name, value)][1..] == [];
    }
  }

  lemma AllFieldsAre(r: Response)
    ensures ParamMap(AllFields(r), map[]) == Effective(r)
  {
    SortedCovers(r.headers.Keys);
    var fields := HeaderFields(Sorted(r.headers.Keys), r.headers);
    FieldsOfMap(Sorted(r.headers.Keys), r.headers, map[]);
    assert ParamMap(fields, map[]) == r.headers;
    ParamMapOfSum(fields, Defaults(r), map[]);
    var a := Default(LENGTH in r.headers, LENGTH, ToString(|r.body|));
    ParamMapOfSum(a, Default(CONNECTION in r.headers, CONNECTION, "close"), r.headers);
    DefaultInMap(LENGTH in r.headers, LENGTH, ToString(|r.body|), r.headers);
    DefaultInMap(CONNECTION in r.headers, CONNECTION, "close", ParamMap(a, r.headers));
  }

  lemma {:induction false} HeaderFieldsOk(keys: seq<string>, r: Response)
    requires ResponseOk(r) && forall k | k in keys :: k in r.headers
    ensures forall i | 0 <= i < |HeaderFields(keys, r.headers)| ::
              var f := HeaderFields(keys, r.headers)[i]; NoBreaks(f.0) && Without(f.0, ':') && NoBreaks(f.1)
  {
    if keys != [] {
      assert keys[0] in keys;
      HeaderFieldsOk(keys[1..], r);
    }
  }

  lemma PrintedIsPlain(n: int)
    ensures NoBreaks(ToString(n))
  {
    DigitsRoundTrip(if n < 0 then -n else n);
    var d := Digits(if n < 0 then -n else n);
    forall i | 0 <= i < |d| ensures d[i] != '\r' && d[i] != '\n' {
      assert d[i] in d;
    }
  }

  lemma AllFieldsOk(r: Response)
    requires ResponseOk(r)
    ensures forall i | 0 <= i < |AllFields(r)| ::
              NoBreaks(AllFields(r)[i].0) && Without(AllFields(r)[i].0, ':') && NoBreaks(AllFields(r)[i].1)
  {
    SortedCovers(r.headers.Keys);
    HeaderFieldsOk(Sorted(r.headers.Keys), r);
    PrintedIsPlain(|r.body|);
  }

  lemma StatusLineIsPlain(r: Response)
    requires ResponseOk(r)
    ensures StatusLine(r) != "" && NoBreaks(StatusLine(r))
  {
    PrintedIsPlain(r.code);
    var front := "HTTP/1.1 " + ToString(r.code);
    assert NoBreaks(front);
    assert StatusLine(r) == front + " " + r.text;
  }

  lemma ResponseLinesAreHeadLines(r: Response)
    requires ResponseOk(r)
    ensures HeadLines(ResponseLines(r))
  {
    AllFieldsOk(r);
    StatusLineIsPlain(r);
    FieldLinesAre(AllFields(r));
    forall i | 0 <= i < |AllFields(r)| ensures FieldLines(AllFields(r))[i] != "" && NoBreaks(FieldLines(AllFields(r))[i]) {
      assert FieldLines(AllFields(r))[i] == FieldLine(AllFields(r)[i]);
    }
  }

  /** A response can be taken apart: the first CRLFCRLF ends its headers and the rest is exactly the
      body, even if the body holds a CRLFCRLF. */
  lemma BodyIsWhatFollowsTheHeaders(r: Response)
    requires ResponseOk(r)
    ensures Split(Sent(r)) == Some((Head(ResponseLines(r))[..|Head(ResponseLines(r))| - 4], r.body))
  {
    ResponseLinesAreHeadLines(r);
    var head := Head(ResponseLines(r));
    BlankLineEndsHead(ResponseLines(r), r.body);
    assert Sent(r)[..|head| - 4] == head[..|head| - 4];
    assert Sent(r)[|head|..] == r.body;
  }

  lemma HeadStartsWithStatus(r: Response)
    ensures |Head(ResponseLines(r))| >= |StatusLine(r)| + 4
    ensures Head(ResponseLines(r))[..|Head(ResponseLines(r))| - 2] == StatusLine(r) + CRLF + Block(FieldLines(AllFields(r)))
  {
    HeadIsBlock(ResponseLines(r));
    assert ResponseLines(r)[1..] == FieldLines(AllFields(r));
  }

  /** What a receiver reads from a response: version, code and text of the status line, word by word, then
      the headers and the body. */
  datatype Message = Message(version: string, code: Option<int>, text: string, headers: map<string, string>, body: string)

  function ReadStatus(line: string): (string, Option<int>, string) {
    var (version, r1) := Word(line);
    var (code, r2) := Word(r1);
    (version, ParseInt(code, INT_MIN, INT_MAX), if r2 == "" then "" else r2[1..])
  }

  function Received(text: string): Option<Message> {
    match Split(text)
    case None => None
    case Some((block, body)) =>
      var (line, rest) := GetLine(block + CRLF);
      var (version, code, words) := ReadStatus(DropCR(line));
      Some(Message(version, code, words, ReadHeaders(rest, map[]), body))
  }

  lemma PrintedHasNoSpaces(n: int)
    ensures ToString(n) != "" && NoSpaces(ToString(n))
  {
    var d := Digits(if n < 0 then -n else n);
    DigitsRoundTrip(if n < 0 then -n else n);
    forall i | 0 <= i < |d| ensures !IsSpace(d[i]) {
      assert d[i] in d;
    }
  }

  lemma StatusIsRead(r: Response)
    requires INT_MIN <= r.code <= INT_MAX
    ensures ReadStatus(StatusLine(r)) == ("HTTP/1.1", Some(r.code), r.text)
  {
    var version, code := "HTTP/1.1", ToString(r.code);
    var tail := " " + (code + (" " + r.text));
    assert StatusLine(r) == "" + (version + tail);
    PrintedHasNoSpaces(r.code);
    WordReads("", version, tail);
    WordReads(" ", code, " " + r.text);
    ParsePrintedWhole(r.code, INT_MIN, INT_MAX);
    assert (" " + r.text)[1..] == r.text;
  }

  lemma BlockWithoutBlank(r: Response)
    requires ResponseOk(r)
    ensures var head := Head(ResponseLines(r));
            |head| >= 4 && head[..|head| - 4] + CRLF == head[..|head| - 2]
  {
    ResponseLinesAreHeadLines(r);
    BlankLineEndsBareHead(ResponseLines(r));
    BlankLineEndsHead(ResponseLines(r), "");
    var head := Head(ResponseLines(r));
    FindIsFirst(head, BLANK);
    assert head[|head| - 4..|head|][..2] == CRLF;
    assert head[|head| - 4..|head| - 2] == CRLF;
  }

  lemma BlockIsRead(r: Response)
    requires ResponseOk(r)
    ensures var (status, rest) := GetLine(StatusLine(r) + CRLF + Block(FieldLines(AllFields(r))));
            DropCR(status) == StatusLine(r) && ReadHeaders(rest, map[]) == Effective(r)
  {
    StatusLineIsPlain(r);
    GetLineReads(StatusLine(r), Block(FieldLines(AllFields(r))));
    assert DropCR(StatusLine(r) + "\r") == StatusLine(r);
    AllFieldsOk(r);
    BlockReads(AllFields(r), map[]);
    AllFieldsAre(r);
  }

  lemma EffectiveIs(r: Response)
    ensures var h := Effective(r);
            && (forall k | k in r.headers :: k in h && h[k] == r.headers[k])
            && (forall k | k in h :: k in r.headers || k == "Content-Length" || k == "Connection")
            && "Content-Length" in h && "Connection" in h
            && ("Content-Length" !in r.headers ==> ParseInt(h["Content-Length"], 0, |r.body|) == Some(|r.body|))
            && ("Connection" !in r.headers ==> h["Connection"] == "close")
  {
    ParsePrintedWhole(|r.body|, 0, |r.body|);
  }

  /** A response is invertible: from the bytes alone a receiver gets back the version, the code and the
      text, every header the caller set, and the body; where the caller set none, Content-Length is the
      body's length and Connection is close, and there are no other headers. */
  lemma HeadersAreRecoverable(r: Response)
    requires ResponseOk(r) && INT_MIN <= r.code <= INT_MAX
    ensures Received(Sent(r)).Some?
    ensures var m := Received(Sent(r)).value;
            && m.version == "HTTP/1.1" && m.code == Some(r.code) && m.text == r.text && m.body == r.body
            && (forall k | k in r.headers :: k in m.headers && m.headers[k] == r.headers[k])
            && (forall k | k in m.headers :: k in r.headers || k == "Content-Length" || k == "Connection")
            && "Content-Length" in m.headers && "Connection" in m.headers
            && ("Content-Length" !in r.headers ==> ParseInt(m.headers["Content-Length"], 0, |r.body|) == Some(|r.body|))
            && ("Connection" !in r.headers ==> m.headers["Connection"] == "close")
  {
    BodyIsWhatFollowsTheHeaders(r);
    BlockWithoutBlank(r);
    HeadStartsWithStatus(r);
    BlockIsRead(r);
    StatusIsRead(r);
    EffectiveIs(r);
  }
}
