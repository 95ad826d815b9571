/** HttpParser::parse of src/http_parser.cpp: request line, query, header fields, body. */
module HttpParsing {
  import opened Common
  import opened Text
  import opened HttpText
  import opened UrlCoding

  datatype Request = Request(verb: string, path: string, version: string, headers: map<string, string>,
                             body: string, params: map<string, string>)

  // ---- what the parser computes ----

  /** std::getline on a non-empty stream: the line without its '\n', and what is left. */
  function GetLine(s: string): (string, string) {
    var i := IndexOf(s, '\n');
    (s[..i], if i < |s| then s[i + 1..] else "")
  }

  function DropCR(line: string): string {
    if line != "" && line[|line| - 1] == '\r' then line[..|line| - 1] else line
  }

  function WordEnd(s: string): (i: nat)
    ensures i <= |s|
  {
    if s == "" || IsSpace(s[0]) then 0 else 1 + WordEnd(s[1..])
  }

  /** One extraction by >>: the next word, and what is left. */
  function Word(s: string): (string, string) {
    var t := SkipSpaces(s);
    (t[..WordEnd(t)], t[WordEnd(t)..])
  }

  function AddParam(params: map<string, string>, pair: string, lenient: Lenient): map<string, string> {
    var eq := IndexOf(pair, '=');
    if eq < |pair| then params[pair[..eq] := Decode(pair[eq + 1..], lenient)]
    else if pair != "" then params[pair := ""]
    else params
  }

  /** The text up to the next '&', and what follows it. */
  function SplitPair(q: string): (r: (string, string))
    requires q != ""
    ensures |r.1| < |q|
  {
    var end := IndexOf(q, '&');
    (q[..end], if end < |q| then q[end + 1..] else "")
  }

  function Query(q: string, params: map<string, string>, lenient: Lenient): map<string, string>
    decreases |q|
  {
    if q == "" then params
    else
      var (pair, rest) := SplitPair(q);
      Query(rest, AddParam(params, pair, lenient), lenient)
  }

  /** What follows the first question mark of a request target. */
  function QueryPart(target: string): Option<string> {
    var q := IndexOf(target, '?');
    if q < |target| then Some(target[q + 1..]) else None
  }

  function TargetParams(target: string, lenient: Lenient): map<string, string> {
    match QueryPart(target)
    case None => map[]
    case Some(q) => Query(q, map[], lenient)
  }

  function Lower(s: string): string {
    if s == "" then "" else [if 'A' <= s[0] <= 'Z' then s[0] + 32 as char else s[0]] + Lower(s[1..])
  }

  function DropSpaces(s: string): string {
    if s != "" && s[0] == ' ' then DropSpaces(s[1..]) else s
  }

  const LENGTH_FIELD: string := "content-length"

  /** The header fields read so far and the content length they declare. */
  datatype Fields = Fields(headers: map<string, string>, length: int)

  /** A later field of the same name overwrites; an unreadable length counts as 0. */
  function AddField(f: Fields, name: string, value: string): Fields {
    Fields(f.headers[Lower(name) := value],
           if Lower(name) != LENGTH_FIELD then f.length
           else match ParseInt(value, INT_MIN, INT_MAX) case Some(n) => n case None => 0)
  }

  function AddLine(f: Fields, line: string): Fields {
    var colon := IndexOf(line, ':');
    if colon == |line| then f else AddField(f, line[..colon], DropSpaces(line[colon + 1..]))
  }

  /** Lines up to the first empty one. */
  function ReadFields(s: string, f: Fields): Fields
    decreases |s|
  {
    if s == "" then f
    else
      var (line, rest) := GetLine(s);
      if line == "" || line == "\r" then f else ReadFields(rest, AddLine(f, DropCR(line)))
  }

  function BodyOf(raw: string, length: int): string {
    if length <= 0 then ""
    else match Find(raw, BLANK)
         case None => ""
         case Some(h) => raw[h + 4..if h + 4 + length <= |raw| then h + 4 + length else |raw|]
  }

  function Parsed(raw: string, lenient: Lenient): Request {
    if raw == "" || GetLine(raw).0 == "" then Request("", "", "", map[], "", map[])
    else
      var (line, rest) := GetLine(raw);
      var (verb, r1) := Word(DropCR(line));
      var (target, r2) := Word(r1);
      var f := ReadFields(rest, Fields(map[], 0));
      Request(verb, target[..IndexOf(target, '?')], Word(r2).0, f.headers, BodyOf(raw, f.length),
              TargetParams(target, lenient))
  }

  // ---- the loops ----

  method ParseParam(params: map<string, string>, pair: string, lenient: Lenient) returns (more: map<string, string>)
    ensures more == AddParam(params, pair, lenient)
  {
    var eq := IndexOf(pair, '=');
    if eq != |pair| {
      var value := UrlDecode(pair[eq + 1..], lenient);
      more := params[pair[..eq] := value];
    } else if pair != "" {
      more := params[pair := ""];
    } else {
      more := params;
    }
  }

  function From(q: string, start: nat): string {
    if start < |q| then q[start..] else ""
  }

  lemma QueryStep(q: string, rest: string, params: map<string, string>, more: map<string, string>, lenient: Lenient)
    requires q != "" && SplitPair(q).1 == rest && more == AddParam(params, SplitPair(q).0, lenient)
    ensures Query(q, params, lenient) == Query(rest, more, lenient)
  {
  }

  /** One turn of the loop over the query: the pair up to the next '&' is recorded. */
  method ParsePair(q: string, start: nat, params: map<string, string>, lenient: Lenient)
      returns (next: nat, more: map<string, string>)
    requires start < |q|
    ensures start < next && From(q, start) != ""
    ensures SplitPair(From(q, start)).1 == From(q, next) && more == AddParam(params, SplitPair(From(q, start)).0, lenient)
  {
    var end := PairEnd(q, start);
    more := ParseParam(params, q[start..end], lenient);
    next := end + 1;
  }

  method ParseQuery(q: string, lenient: Lenient) returns (params: map<string, string>)
    ensures params == Query(q, map[], lenient)
  {
    params := map[];
    var start := 0;
    while start < |q|
      invariant 0 <= start && Query(From(q, start), params, lenient) == Query(q, map[], lenient)
    {
      var next, more := ParsePair(q, start, params, lenient);
      QueryStep(From(q, start), From(q, next), params, more, lenient);
      start, params := next, more;
    }
  }

  /** The next '&' from a position on, or the end. */
  method PairEnd(q: string, start: nat) returns (end: nat)
    requires start < |q|
    ensures start <= end <= |q|
    ensures From(q, start) != "" && SplitPair(From(q, start)) == (q[start..end], From(q, end + 1))
  {
    end := start + IndexOf(q[start..], '&');
    assert q[start..][..end - start] == q[start..end];
    assert end < |q| ==> q[start..][end - start + 1..] == q[end + 1..];
  }

  /** The parameters after the question mark of a request target. */
  method ParseTarget(target: string, lenient: Lenient) returns (params: map<string, string>)
    ensures params == TargetParams(target, lenient)
  {
    match QueryPart(target)
    case None => params := map[];
    case Some(q) => params := ParseQuery(q, lenient);
  }

  method StripSpaces(text: string) returns (value: string)
    ensures value == DropSpaces(text)
  {
    value := text;
    while value != "" && value[0] == ' '
      invariant DropSpaces(value) == DropSpaces(text)
      decreases |value|
    {
      value := value[1..];
    }
  }

  method ParseLine(f: Fields, line: string) returns (g: Fields)
    ensures g == AddLine(f, line)
  {
    g := f;
    var colon := IndexOf(line, ':');
    if colon != |line| {
      var key := Lower(line[..colon]);
      var value := StripSpaces(line[colon + 1..]);
      g := g.(headers := g.headers[key := value]);
      if key == LENGTH_FIELD {
        var n := ParseInt(value, INT_MIN, INT_MAX);
        g := g.(length := if n.Some? then n.value else 0);
      }
    }
  }

  method ParseFields(text: string) returns (f: Fields)
    ensures f == ReadFields(text, Fields(map[], 0))
  {
    f := Fields(map[], 0);
    var stream := text;
    while stream != ""
      invariant ReadFields(stream, f) == ReadFields(text, Fields(map[], 0))
      decreases |stream|
    {
      var (line, rest) := GetLine(stream);
      if line == "" || line == "\r" {
        return;
      }
      f := ParseLine(f, DropCR(line));
      stream := rest;
    }
  }

  method ReadBody(raw: string, length: int) returns (body: string)
    ensures body == BodyOf(raw, length)
  {
    body := "";
    if length > 0 {
      var headerEnd := Find(raw, BLANK);
      if headerEnd.Some? {
        var bodyStart := headerEnd.value + 4;
        if bodyStart < |raw| {
          body := raw[bodyStart..if bodyStart + length <= |raw| then bodyStart + length else |raw|];
        }
      }
    }
  }

  method Parse(raw: string, lenient: Lenient) returns (r: Request)
    ensures r == Parsed(raw, lenient)
  {
    r := Request("", "", "", map[], "", map[]);
    if raw == "" {
      return;
    }
    var (line, rest) := GetLine(raw);
    if line == "" {
      return;
    }
    var (verb, r1) := Word(DropCR(line));
    var (target, r2) := Word(r1);
    var params := ParseTarget(target, lenient);
    var f := ParseFields(rest);
    var body := ReadBody(raw, f.length);
    r := Request(verb, target[..IndexOf(target, '?')], Word(r2).0, f.headers, body, params);
  }

  // ---- requests as a client writes them ----

  /** A request before it is written out; `pairs` are the query's names and (not yet encoded) values. */
  datatype Wire = Wire(verb: string, path: string, pairs: seq<(string, string)>, version: string,
                       fields: seq<(string, string)>, body: string)

  ghost predicate NoSpaces(s: string) {
    forall i | 0 <= i < |s| :: !IsSpace(s[i])
  }

  ghost predicate Without(s: string, c: char) {
    forall i | 0 <= i < |s| :: s[i] != c
  }

  ghost predicate PairOk(p: (string, string)) {
    NoSpaces(p.0) && Without(p.0, '&') && Without(p.0, '=') && Bytes(p.1)
  }

  ghost predicate FieldOk(f: (string, string)) {
    NoBreaks(f.0) && Without(f.0, ':') && NoBreaks(f.1)
  }

  ghost predicate WireOk(w: Wire) {
    && w.verb != "" && w.path != "" && w.version != ""
    && NoSpaces(w.verb) && NoSpaces(w.path) && NoSpaces(w.version) && Without(w.path, '?')
    && (forall i | 0 <= i < |w.pairs| :: PairOk(w.pairs[i]))
    && (forall i | 0 <= i < |w.fields| :: FieldOk(w.fields[i]))
  }

  ghost function PairText(p: (string, string)): string
    requires PairOk(p)
  {
    p.0 + "=" + Encode(p.1)
  }

  ghost function QueryText(pairs: seq<(string, string)>): string
    requires forall i | 0 <= i < |pairs| :: PairOk(pairs[i])
  {
    if pairs == [] then ""
    else if |pairs| == 1 then PairText(pairs[0])
    else PairText(pairs[0]) + "&" + QueryText(pairs[1..])
  }

  ghost function Target(w: Wire): string
    requires WireOk(w)
  {
    if w.pairs == [] then w.path else w.path + "?" + QueryText(w.pairs)
  }

  function FieldLine(f: (string, string)): string {
    f.0 + ": " + f.1
  }

  function FieldLines(fields: seq<(string, string)>): seq<string> {
    if fields == [] then [] else [FieldLine(fields[0])] + FieldLines(fields[1..])
  }

  function StartLine(verb: string, target: string, version: string): string {
    verb + " " + target + " " + version
  }

  ghost function Lines(w: Wire): seq<string>
    requires WireOk(w)
  {
    [StartLine(w.verb, Target(w), w.version)] + FieldLines(w.fields)
  }

  ghost function Written(w: Wire): string
    requires WireOk(w)
  {
    Head(Lines(w)) + w.body
  }

  /** The last value wins. */
  function ParamMap(pairs: seq<(string, string)>, acc: map<string, string>): map<string, string> {
    if pairs == [] then acc else ParamMap(pairs[1..], acc[pairs[0].0 := pairs[0].1])
  }

  function FieldMap(fields: seq<(string, string)>, acc: Fields): Fields {
    if fields == [] then acc else FieldMap(fields[1..], AddField(acc, fields[0].0, DropSpaces(fields[0].1)))
  }

  // ---- the query round trip ----

  lemma EncodedIsSafe(s: string)
    requires Bytes(s)
    ensures NoSpaces(Encode(s)) && Without(Encode(s), '&') && Without(Encode(s), '?')
  {
    EncodedAlphabet(s);
    var e := Encode(s);
    forall i | 0 <= i < |e| ensures !IsSpace(e[i]) && e[i] != '&' && e[i] != '?' {
      assert e[i] in e;
    }
  }

  lemma AddParamReads(params: map<string, string>, p: (string, string), lenient: Lenient)
    requires PairOk(p)
    ensures AddParam(params, PairText(p), lenient) == params[p.0 := p.1]
  {
    var text := PairText(p);
    assert text[|p.0|] == '=' && text[..|p.0|] == p.0 && text[|p.0| + 1..] == Encode(p.1);
    IndexOfFirst(text, '=', |p.0|);
    DecodeEncode(p.1, lenient);
  }

  lemma PairHasNoAmp(p: (string, string))
    requires PairOk(p)
    ensures Without(PairText(p), '&') && PairText(p) != ""
  {
    EncodedIsSafe(p.1);
  }

  lemma PairReads(p: (string, string), rest: string, acc: map<string, string>, lenient: Lenient)
    requires PairOk(p)
    ensures Query(PairText(p) + "&" + rest, acc, lenient) == Query(rest, acc[p.0 := p.1], lenient)
  {
    var text := PairText(p);
    var q := text + "&" + rest;
    PairHasNoAmp(p);
    AddParamReads(acc, p, lenient);
    assert q[|text|] == '&' && q[..|text|] == text && q[|text| + 1..] == rest;
    IndexOfFirst(q, '&', |text|);
  }

  lemma LastPairReads(p: (string, string), acc: map<string, string>, lenient: Lenient)
    requires PairOk(p)
    ensures Query(PairText(p), acc, lenient) == acc[p.0 := p.1]
  {
    var text := PairText(p);
    PairHasNoAmp(p);
    AddParamReads(acc, p, lenient);
    IndexOfFirst(text, '&', |text|);
    assert text[..|text|] == text;
    assert Query("", acc[p.0 := p.1], lenient) == acc[p.0 := p.1];
  }

  /** A query joined from name=encoded-value pairs parses back to the last-wins map of the originals. */
  lemma {:induction false} QueryRoundTrip(pairs: seq<(string, string)>, acc: map<string, string>, lenient: Lenient)
    requires forall i | 0 <= i < |pairs| :: PairOk(pairs[i])
    ensures Query(QueryText(pairs), acc, lenient) == ParamMap(pairs, acc)
    decreases |pairs|
  {
    if pairs != [] {
      if |pairs| == 1 {
        LastPairReads(pairs[0], acc, lenient);
      } else {
        PairReads(pairs[0], QueryText(pairs[1..]), acc, lenient);
        QueryRoundTrip(pairs[1..], acc[pairs[0].0 := pairs[0].1], lenient);
      }
    }
  }

  /** One part of a query: a name with an encoded value, a name alone, or nothing between two '&'. */
  datatype Part = Valued(name: string, value: string) | Flag(name: string) | Gap

  ghost predicate PartOk(p: Part) {
    match p
    case Valued(name, value) => PairOk((name, value))
    case Flag(name) => name != "" && Without(name, '&') && Without(name, '=')
    case Gap => true
  }

  ghost function PartText(p: Part): string
    requires PartOk(p)
  {
    match p
    case Valued(name, value) => PairText((name, value))
    case Flag(name) => name
    case Gap => ""
  }

  ghost function PartsText(parts: seq<Part>): string
    requires forall i | 0 <= i < |parts| :: PartOk(parts[i])
  {
    if parts == [] then "" else if |parts| == 1 then PartText(parts[0]) else PartText(parts[0]) + "&" + PartsText(parts[1..])
  }

  /** A name alone has the empty value, and empty parts say nothing. */
  function PartMap(parts: seq<Part>, acc: map<string, string>): map<string, string> {
    if parts == [] then acc
    else
      PartMap(parts[1..], match parts[0] case Valued(name, value) => acc[name := value] case Flag(name) => acc[name := ""] case Gap => acc)
  }

  lemma PartIsRead(p: Part, acc: map<string, string>, lenient: Lenient)
    requires PartOk(p)
    ensures Without(PartText(p), '&')
    ensures AddParam(acc, PartText(p), lenient) ==
            match p case Valued(name, value) => acc[name := value] case Flag(name) => acc[name := ""] case Gap => acc
  {
    match p
    case Valued(name, value) =>
      AddParamReads(acc, (name, value), lenient);
      PairHasNoAmp((name, value));
    case Flag(name) => IndexOfFirst(name, '=', |name|);
    case Gap =>
  }

  lemma FirstPartReads(text: string, rest: string, acc: map<string, string>, lenient: Lenient)
    requires Without(text, '&')
    ensures Query(text + "&" + rest, acc, lenient) == Query(rest, AddParam(acc, text, lenient), lenient)
    ensures Query(text, acc, lenient) == AddParam(acc, text, lenient)
  {
    var q := text + "&" + rest;
    assert q[|text|] == '&' && q[..|text|] == text && q[|text| + 1..] == rest;
    IndexOfFirst(q, '&', |text|);
    IndexOfFirst(text, '&', |text|);
    assert text[..|text|] == text;
    assert Query("", AddParam(acc, text, lenient), lenient) == AddParam(acc, text, lenient);
  }

  /** Every query is read part by part: values decoded, names alone with an empty value, empty parts
      passed over, later parts winning. */
  lemma {:induction false} EveryPartIsRead(parts: seq<Part>, acc: map<string, string>, lenient: Lenient)
    requires forall i | 0 <= i < |parts| :: PartOk(parts[i])
    ensures Query(PartsText(parts), acc, lenient) == PartMap(parts, acc)
    decreases |parts|
  {
    if parts != [] {
      var text := PartText(parts[0]);
      PartIsRead(parts[0], acc, lenient);
      if |parts| == 1 {
        FirstPartReads(text, "", acc, lenient);
      } else {
        FirstPartReads(text, PartsText(parts[1..]), acc, lenient);
        EveryPartIsRead(parts[1..], AddParam(acc, text, lenient), lenient);
      }
    }
  }

  lemma {:induction false} QueryTextIsSafe(pairs: seq<(string, string)>)
    requires forall i | 0 <= i < |pairs| :: PairOk(pairs[i])
    ensures NoSpaces(QueryText(pairs))
  {
    if pairs != [] {
      EncodedIsSafe(pairs[0].1);
      QueryTextIsSafe(pairs[1..]);
    }
  }

  // ---- the request round trip ----

  lemma GetLineReads(line: string, rest: string)
    requires NoBreaks(line)
    ensures GetLine(line + CRLF + rest) == (line + "\r", rest)
  {
    var s := line + CRLF + rest;
    forall k | 0 <= k < |line| + 1 ensures s[k] != '\n' {
      assert s[k] == if k < |line| then line[k] else '\r';
    }
    assert s[|line| + 1] == '\n';
    IndexOfFirst(s, '\n', |line| + 1);
    assert s[..|line| + 1] == line + "\r" && s[|line| + 2..] == rest;
  }

  lemma AddLineReads(f: Fields, field: (string, string))
    requires FieldOk(field)
    ensures AddLine(f, FieldLine(field)) == AddField(f, field.0, DropSpaces(field.1))
    ensures FieldLine(field) != "" && NoBreaks(FieldLine(field))
  {
    var line := FieldLine(field);
    assert line[|field.0|] == ':' && line[..|field.0|] == field.0;
    assert line[|field.0| + 1..] == [' '] + field.1;
    assert ([' '] + field.1)[1..] == field.1;
    assert DropSpaces([' '] + field.1) == DropSpaces(field.1);
    IndexOfFirst(line, ':', |field.0|);
  }

  /** The fields of a header block are read in order, and reading stops at the empty line. */
  lemma {:induction false} FieldsRoundTrip(fields: seq<(string, string)>, body: string, acc: Fields)
    requires forall i | 0 <= i < |fields| :: FieldOk(fields[i])
    ensures ReadFields(Head(FieldLines(fields)) + body, acc) == FieldMap(fields, acc)
    decreases |fields|
  {
    if fields == [] {
      assert Head([]) + body == "" + CRLF + body;
      GetLineReads("", body);
      assert "" + "\r" == "\r";
    } else {
      var line := FieldLine(fields[0]);
      var rest := Head(FieldLines(fields[1..])) + body;
      AddLineReads(acc, fields[0]);
      assert FieldLines(fields)[1..] == FieldLines(fields[1..]);
      assert Head(FieldLines(fields)) + body == line + CRLF + rest;
      GetLineReads(line, rest);
      assert DropCR(line + "\r") == line;
      FieldsRoundTrip(fields[1..], body, AddField(acc, fields[0].0, DropSpaces(fields[0].1)));
    }
  }

  lemma {:induction false} WordEnds(w: string, rest: string)
    requires NoSpaces(w) && (rest == "" || IsSpace(rest[0]))
    ensures WordEnd(w + rest) == |w|
  {
    if w == "" {
      assert w + rest == rest;
    } else {
      assert (w + rest)[1..] == w[1..] + rest;
      WordEnds(w[1..], rest);
    }
  }

  lemma WordReads(gap: string, w: string, rest: string)
    requires w != "" && NoSpaces(w) && (rest == "" || IsSpace(rest[0])) && (gap == "" || gap == " ")
    ensures Word(gap + (w + rest)) == (w, rest)
  {
    WordEnds(w, rest);
    assert SkipSpaces(w + rest) == w + rest;
    if gap == "" {
      assert gap + (w + rest) == w + rest;
    } else {
      assert (gap + (w + rest))[1..] == w + rest;
    }
    assert (w + rest)[..|w|] == w && (w + rest)[|w|..] == rest;
  }

  lemma TargetIsSafe(w: Wire)
    requires WireOk(w)
    ensures Target(w) != "" && NoSpaces(Target(w))
  {
    QueryTextIsSafe(w.pairs);
  }

  lemma TargetReads(w: Wire, lenient: Lenient)
    requires WireOk(w)
    ensures Target(w)[..IndexOf(Target(w), '?')] == w.path
    ensures TargetParams(Target(w), lenient) == ParamMap(w.pairs, map[])
  {
    var t := Target(w);
    if w.pairs == [] {
      IndexOfFirst(t, '?', |w.path|);
      assert t[..|w.path|] == w.path;
    } else {
      var text := QueryText(w.pairs);
      assert t == w.path + "?" + text;
      IndexOfFirst(t, '?', |w.path|);
      assert t[..|w.path|] == w.path && t[|w.path| + 1..] == text;
      QueryRoundTrip(w.pairs, map[], lenient);
    }
  }

  lemma {:induction false} FieldLinesAre(fields: seq<(string, string)>)
    ensures |FieldLines(fields)| == |fields|
    ensures forall i | 0 <= i < |fields| :: FieldLines(fields)[i] == FieldLine(fields[i])
  {
    if fields != [] {
      FieldLinesAre(fields[1..]);
    }
  }

  lemma StartLineReads(verb: string, target: string, version: string)
    requires verb != "" && target != "" && version != ""
    requires NoSpaces(verb) && NoSpaces(target) && NoSpaces(version)
    ensures Word(StartLine(verb, target, version)) == (verb, " " + (target + (" " + version)))
    ensures Word(" " + (target + (" " + version))) == (target, " " + version)
    ensures Word(" " + version) == (version, "")
  {
    var tail := " " + (target + (" " + version));
    assert StartLine(verb, target, version) == "" + (verb + tail);
    WordReads("", verb, tail);
    WordReads(" ", target, " " + version);
    assert version + "" == version;
    WordReads(" ", version, "");
  }

  lemma StartLineIsPlain(verb: string, target: string, version: string)
    requires NoSpaces(verb) && NoSpaces(target) && NoSpaces(version)
    ensures StartLine(verb, target, version) != "" && NoBreaks(StartLine(verb, target, version))
  {
    assert NoBreaks(verb) && NoBreaks(target) && NoBreaks(version);
    var front := verb + " " + target;
    assert NoBreaks(front);
    assert StartLine(verb, target, version) == front + " " + version;
  }

  lemma LinesAreHeadLines(w: Wire)
    requires WireOk(w)
    ensures HeadLines(Lines(w)) && |Lines(w)| == |w.fields| + 1
    ensures forall i | 0 <= i < |w.fields| :: Lines(w)[i + 1] == FieldLine(w.fields[i])
  {
    FieldLinesAre(w.fields);
    TargetIsSafe(w);
    StartLineIsPlain(w.verb, Target(w), w.version);
    FieldLinesArePlain(w.fields);
  }

  lemma FieldLinesArePlain(fields: seq<(string, string)>)
    requires forall i | 0 <= i < |fields| :: FieldOk(fields[i])
    ensures forall i | 0 <= i < |FieldLines(fields)| :: FieldLines(fields)[i] != "" && NoBreaks(FieldLines(fields)[i])
  {
    FieldLinesAre(fields);
    forall i | 0 <= i < |fields| ensures FieldLines(fields)[i] != "" && NoBreaks(FieldLines(fields)[i]) {
      AddLineReads(Fields(map[], 0), fields[i]);
    }
  }

  lemma BodyReads(lines: seq<string>, body: string, length: int)
    requires HeadLines(lines)
    ensures BodyOf(Head(lines) + body, length) == if length <= 0 then "" else if length <= |body| then body[..length] else body
  {
    BlankLineEndsHead(lines, body);
    var raw := Head(lines) + body;
    if 0 < length <= |body| {
      assert raw[|Head(lines)|..|Head(lines)| + length] == body[..length];
    } else if 0 < length {
      assert raw[|Head(lines)|..|raw|] == body;
    }
  }

  lemma RequestRoundTrip(w: Wire, lenient: Lenient)
    requires WireOk(w)
    ensures var f := FieldMap(w.fields, Fields(map[], 0));
            Parsed(Written(w), lenient) ==
            Request(w.verb, w.path, w.version, f.headers,
                    if f.length <= 0 then "" else if f.length <= |w.body| then w.body[..f.length] else w.body,
                    ParamMap(w.pairs, map[]))
  {
    var line := StartLine(w.verb, Target(w), w.version);
    var rest := Head(FieldLines(w.fields)) + w.body;
    assert Lines(w)[1..] == FieldLines(w.fields);
    assert Written(w) == line + CRLF + rest;
    TargetIsSafe(w);
    StartLineReads(w.verb, Target(w), w.version);
    StartLineIsPlain(w.verb, Target(w), w.version);
    GetLineReads(line, rest);
    assert DropCR(line + "\r") == line;
    TargetReads(w, lenient);
    FieldsRoundTrip(w.fields, w.body, Fields(map[], 0));
    LinesAreHeadLines(w);
    BodyReads(Lines(w), w.body, FieldMap(w.fields, Fields(map[], 0)).length);
  }

  // ---- what the header map holds ----

  /** The same letter but for ASCII case. */
  ghost predicate SameLetter(a: char, b: char) {
    || a == b
    || ('A' <= a <= 'Z' && b as int == a as int + 32)
    || ('A' <= b <= 'Z' && a as int == b as int + 32)
  }

  ghost predicate SameName(a: string, b: string) {
    |a| == |b| && forall i | 0 <= i < |a| :: SameLetter(a[i], b[i])
  }

  ghost predicate LowerCase(s: string) {
    forall i | 0 <= i < |s| :: !('A' <= s[i] <= 'Z')
  }

  /** Field i has this name, in whatever case. */
  ghost predicate Named(fields: seq<(string, string)>, i: int, name: string) {
    0 <= i < |fields| && SameName(fields[i].0, name)
  }

  ghost predicate LastNamed(fields: seq<(string, string)>, i: int, name: string) {
    Named(fields, i, name) && forall j | i < j :: !Named(fields, j, name)
  }

  /** v is the value without the spaces it starts with. */
  ghost predicate Strips(value: string, v: string) {
    exists k :: 0 <= k <= |value| && v == value[k..] && (forall i | 0 <= i < k :: value[i] == ' ') && (v != "" ==> v[0] != ' ')
  }

  /** The map has exactly the names of the fields, in lower case, each with the value of the last field
      of that name. */
  ghost predicate HeadersOf(fields: seq<(string, string)>, headers: map<string, string>) {
    && (forall n :: n in headers <==> LowerCase(n) && exists i :: Named(fields, i, n))
    && (forall n, i | n in headers && LastNamed(fields, i, n) :: Strips(fields[i].1, headers[n]))
  }

  lemma {:induction false} LowerIff(s: string, n: string)
    ensures Lower(s) == n <==> LowerCase(n) && SameName(s, n)
  {
    LowerAt(s);
    if LowerCase(n) && SameName(s, n) {
      forall i | 0 <= i < |s| ensures Lower(s)[i] == n[i] {
        assert SameLetter(s[i], n[i]);
      }
    }
  }

  lemma {:induction false} LowerAt(s: string)
    ensures |Lower(s)| == |s|
    ensures forall i | 0 <= i < |s| :: Lower(s)[i] == if 'A' <= s[i] <= 'Z' then s[i] + 32 as char else s[i]
  {
    if s != "" {
      LowerAt(s[1..]);
    }
  }

  lemma {:induction false} SpacesDropped(value: string)
    ensures Strips(value, DropSpaces(value))
  {
    if value != "" && value[0] == ' ' {
      SpacesDropped(value[1..]);
      var k :| 0 <= k <= |value[1..]| && DropSpaces(value) == value[1..][k..] && (forall i | 0 <= i < k :: value[1..][i] == ' ');
      assert value[1..][k..] == value[k + 1..];
      forall i | 0 <= i < k + 1 ensures value[i] == ' ' {
        assert i > 0 ==> value[1..][i - 1] == ' ';
      }
    } else {
      assert value == value[0..];
    }
  }

  lemma NamedLater(fields: seq<(string, string)>, n: string)
    requires fields != []
    ensures (exists i :: Named(fields, i, n)) <==> Named(fields, 0, n) || exists i :: Named(fields[1..], i, n)
    ensures forall i | i > 0 :: LastNamed(fields, i, n) <==> LastNamed(fields[1..], i - 1, n)
    ensures LastNamed(fields, 0, n) <==> Named(fields, 0, n) && forall i :: !Named(fields[1..], i, n)
  {
    forall i | i > 0 ensures Named(fields, i, n) <==> Named(fields[1..], i - 1, n) {
    }
    if i :| Named(fields[1..], i, n) {
      assert Named(fields, i + 1, n);
    }
    forall i | i > 0 ensures LastNamed(fields, i, n) <==> LastNamed(fields[1..], i - 1, n) {
      LastShifts(fields, i, n);
    }
    if Named(fields, 0, n) {
      forall i ensures Named(fields[1..], i, n) <==> i >= 0 && Named(fields, i + 1, n) {
      }
    }
  }

  lemma LastShifts(fields: seq<(string, string)>, i: int, n: string)
    requires fields != [] && i > 0
    ensures LastNamed(fields, i, n) <==> LastNamed(fields[1..], i - 1, n)
  {
    forall j | j > 0 ensures Named(fields, j, n) <==> Named(fields[1..], j - 1, n) {
    }
    if LastNamed(fields, i, n) {
      forall j | i - 1 < j ensures !Named(fields[1..], j, n) {
        assert !Named(fields, j + 1, n);
      }
    }
  }

  lemma {:induction false} FieldMapReads(fields: seq<(string, string)>, acc: Fields, n: string)
    requires LowerCase(n)
    ensures var h := FieldMap(fields, acc).headers;
            && (n in h <==> n in acc.headers || exists i :: Named(fields, i, n))
            && (forall i | LastNamed(fields, i, n) :: n in h && h[n] == DropSpaces(fields[i].1))
            && (n in acc.headers && (forall i :: !Named(fields, i, n)) ==> h[n] == acc.headers[n])
    decreases |fields|
  {
    if fields != [] {
      var more := AddField(acc, fields[0].0, DropSpaces(fields[0].1));
      LowerIff(fields[0].0, n);
      NamedLater(fields, n);
      FieldMapReads(fields[1..], more, n);
    }
  }

  lemma {:induction false} NamesAreLower(fields: seq<(string, string)>, acc: Fields)
    requires forall n | n in acc.headers :: LowerCase(n)
    ensures forall n | n in FieldMap(fields, acc).headers :: LowerCase(n)
    decreases |fields|
  {
    if fields != [] {
      LowerIff(fields[0].0, Lower(fields[0].0));
      NamesAreLower(fields[1..], AddField(acc, fields[0].0, DropSpaces(fields[0].1)));
    }
  }

  lemma FieldMapIsHeaders(fields: seq<(string, string)>)
    ensures HeadersOf(fields, FieldMap(fields, Fields(map[], 0)).headers)
  {
    var h := FieldMap(fields, Fields(map[], 0)).headers;
    NamesAreLower(fields, Fields(map[], 0));
    forall n ensures n in h <==> LowerCase(n) && exists i :: Named(fields, i, n) {
      if LowerCase(n) {
        FieldMapReads(fields, Fields(map[], 0), n);
      }
    }
    forall n, i | n in h && LastNamed(fields, i, n) ensures Strips(fields[i].1, h[n]) {
      FieldMapReads(fields, Fields(map[], 0), n);
      SpacesDropped(fields[i].1);
    }
  }

  /** The number a field value gives; 0 if it gives none. */
  function Number(value: string): int {
    match ParseInt(value, INT_MIN, INT_MAX) case Some(n) => n case None => 0
  }

  /** The length that the last content-length field gives, in whatever case it is named; 0 without one. */
  ghost predicate Declares(fields: seq<(string, string)>, length: int) {
    && (forall i, v | LastNamed(fields, i, "content-length") && Strips(fields[i].1, v) :: length == Number(v))
    && ((forall i :: !Named(fields, i, "content-length")) ==> length == 0)
  }

  lemma {:induction false} FieldMapLength(fields: seq<(string, string)>, acc: Fields, name: string)
    requires name == LENGTH_FIELD && LowerCase(name)
    ensures var length := FieldMap(fields, acc).length;
            && (forall i | LastNamed(fields, i, name) :: length == Number(DropSpaces(fields[i].1)))
            && ((forall i :: !Named(fields, i, name)) ==> length == acc.length)
    decreases |fields|
  {
    if fields != [] {
      var more := AddField(acc, fields[0].0, DropSpaces(fields[0].1));
      LowerIff(fields[0].0, name);
      NamedLater(fields, name);
      FieldMapLength(fields[1..], more, name);
    }
  }

  lemma {:induction false} StripsOnce(value: string, a: string, b: string)
    requires Strips(value, a) && Strips(value, b)
    ensures a == b
  {
    var j :| 0 <= j <= |value| && a == value[j..] && (forall i | 0 <= i < j :: value[i] == ' ') && (a != "" ==> a[0] != ' ');
    var k :| 0 <= k <= |value| && b == value[k..] && (forall i | 0 <= i < k :: value[i] == ' ') && (b != "" ==> b[0] != ' ');
    SameStart(value, a, j, b, k);
    SameStart(value, b, k, a, j);
  }

  lemma SameStart(value: string, a: string, j: nat, b: string, k: nat)
    requires j <= |value| && k <= |value| && a == value[j..] && b == value[k..]
    requires (a != "" ==> a[0] != ' ') && forall i | 0 <= i < k :: value[i] == ' '
    ensures k <= j
  {
    assert j < |value| ==> a[0] == value[j];
  }

  lemma FieldMapDeclares(fields: seq<(string, string)>)
    ensures Declares(fields, FieldMap(fields, Fields(map[], 0)).length)
  {
    var name := LENGTH_FIELD;
    assert LowerCase(name);
    FieldMapLength(fields, Fields(map[], 0), name);
    forall i, v | LastNamed(fields, i, name) && Strips(fields[i].1, v)
      ensures FieldMap(fields, Fields(map[], 0)).length == Number(v)
    {
      SpacesDropped(fields[i].1);
      StripsOnce(fields[i].1, v, DropSpaces(fields[i].1));
    }
  }

  /** The request as it was before it was written: verb, path, version, decoded parameters with the last
      of a name winning, and the header map. */
  ghost predicate ReadsBack(w: Wire, r: Request) {
    && r.verb == w.verb && r.path == w.path && r.version == w.version
    && r.params == ParamMap(w.pairs, map[]) && HeadersOf(w.fields, r.headers)
  }

  /** A written request parses back, and its body is as much as the declared length covers. */
  lemma RequestReadsBack(w: Wire, lenient: Lenient)
    requires WireOk(w)
    ensures ReadsBack(w, Parsed(Written(w), lenient))
    ensures exists length :: Declares(w.fields, length) &&
              Parsed(Written(w), lenient).body ==
              if length <= 0 then "" else if length <= |w.body| then w.body[..length] else w.body
  {
    RequestRoundTrip(w, lenient);
    FieldMapIsHeaders(w.fields);
    FieldMapDeclares(w.fields);
  }

  /** A line without a colon is passed over, and a line may end in a bare line feed. */
  lemma OddLinesAreRead(line: string, rest: string, f: Fields)
    requires line != "" && NoBreaks(line)
    ensures Without(line, ':') ==> ReadFields(line + CRLF + rest, f) == ReadFields(rest, f)
    ensures ReadFields(line + "\n" + rest, f) == ReadFields(line + CRLF + rest, f)
  {
    GetLineReads(line, rest);
    assert DropCR(line + "\r") == line;
    var s := line + "\n" + rest;
    IndexOfFirst(s, '\n', |line|);
    assert s[..|line|] == line && s[|line| + 1..] == rest;
    if Without(line, ':') {
      IndexOfFirst(line, ':', |line|);
    }
  }
}
