/** The flat-object JSON builder and parser of src/json_helper.cpp. A string is a sequence of bytes,
    modelled by any characters at all. */
module Json {
  import opened Common
  import opened OrderedKeys
  import opened Text

  const BACKSPACE: char := 8 as char
  const FORMFEED: char := 12 as char

  // ---- escaping ----

  function EscapeChar(c: char): string {
    if c == '"' then "\\\""
    else if c == '\\' then "\\\\"
    else if c == BACKSPACE then "\\b"
    else if c == FORMFEED then "\\f"
    else if c == '\n' then "\\n"
    else if c == '\r' then "\\r"
    else if c == '\t' then "\\t"
    else [c]
  }

  function Escape(s: string): string {
    if s == "" then "" else EscapeChar(s[0]) + Escape(s[1..])
  }

  /** An unknown escape stands for its own character. */
  function UnescapeChar(c: char): char {
    match c
    case 'b' => BACKSPACE
    case 'f' => FORMFEED
    case 'n' => '\n'
    case 'r' => '\r'
    case 't' => '\t'
    case _ => c
  }

  /** The rest of a string token after its opening quote: the text it stands for, and what follows the
      closing quote. */
  function Token(s: string): (r: Option<(string, string)>)
    ensures r.Some? ==> |r.value.1| < |s|
  {
    if s == "" then None
    else if s[0] == '"' then Some(("", s[1..]))
    else if s[0] == '\\' && |s| == 1 then None
    else
      var (c, rest) := if s[0] == '\\' then (UnescapeChar(s[1]), s[2..]) else (s[0], s[1..]);
      match Token(rest)
      case None => None
      case Some((text, after)) => Some(([c] + text, after))
  }

  /** The token whose text starts with `text` and goes on as r. */
  function Prepend(text: string, r: Option<(string, string)>): Option<(string, string)> {
    match r
    case None => None
    case Some((more, after)) => Some((text + more, after))
  }

  lemma PrependNothing(r: Option<(string, string)>)
    ensures Prepend("", r) == r
  {
    if r.Some? {
      assert "" + r.value.0 == r.value.0;
    }
  }

  lemma PrependTwice(a: string, b: string, r: Option<(string, string)>)
    ensures Prepend(a, Prepend(b, r)) == Prepend(a + b, r)
  {
    if r.Some? {
      assert a + (b + r.value.0) == a + b + r.value.0;
    }
  }

  lemma TokenPlain(c: char, tail: string)
    requires c != '"' && c != '\\'
    ensures Token([c] + tail) == Prepend([c], Token(tail))
  {
    assert ([c] + tail)[1..] == tail;
  }

  lemma TokenEscaped(e: char, tail: string)
    ensures Token(['\\', e] + tail) == Prepend([UnescapeChar(e)], Token(tail))
  {
    assert (['\\', e] + tail)[2..] == tail;
  }

  lemma TokenEnds(tail: string)
    ensures Token(['"'] + tail) == Some(("", tail))
  {
    assert (['"'] + tail)[1..] == tail;
  }

  lemma TokenReadsChar(c: char, tail: string)
    ensures Token(EscapeChar(c) + tail) == Prepend([c], Token(tail))
  {
    if |EscapeChar(c)| == 1 {
      TokenPlain(c, tail);
    } else {
      var e := EscapeChar(c)[1];
      assert EscapeChar(c) == ['\\', e] && UnescapeChar(e) == c;
      TokenEscaped(e, tail);
    }
  }

  /** Reading an escaped string back gives the string, whatever bytes it holds. */
  lemma {:induction false} TokenReadsEscape(s: string, rest: string)
    ensures Token(Escape(s) + (['"'] + rest)) == Some((s, rest))
  {
    if s == "" {
      assert Escape(s) + (['"'] + rest) == ['"'] + rest;
      TokenEnds(rest);
    } else {
      var tail := Escape(s[1..]) + (['"'] + rest);
      assert Escape(s) + (['"'] + rest) == EscapeChar(s[0]) + tail;
      TokenReadsChar(s[0], tail);
      TokenReadsEscape(s[1..], rest);
      assert s == [s[0]] + s[1..];
    }
  }

  /** The two-character escapes of section 7 of RFC 8259 that the code writes: the letter after the
      backslash, and the code of the character it stands for. */
  const ESCAPES: seq<(char, int)> := [('"', 0x22), ('\\', 0x5C), ('b', 0x08), ('f', 0x0C), ('n', 0x0A), ('r', 0x0D), ('t', 0x09)]

  /** Each of these is written and read as the RFC says. */
  lemma EscapesAsRfc(i: nat, tail: string)
    requires i < |ESCAPES|
    ensures var (letter, code) := ESCAPES[i];
            && Escape([code as char]) == ['\\', letter]
            && Token(['\\', letter] + tail) == Prepend([code as char], Token(tail))
  {
    var (letter, code) := ESCAPES[i];
    assert [code as char][1..] == "";
    assert EscapeChar(code as char) + "" == EscapeChar(code as char);
    TokenEscaped(letter, tail);
  }

  /** Every other character is written as it is. */
  lemma OthersAreNotEscaped(c: char)
    requires forall i | 0 <= i < |ESCAPES| :: c as int != ESCAPES[i].1
    ensures Escape([c]) == [c]
  {
    assert c as int != ESCAPES[0].1 && c as int != ESCAPES[1].1 && c as int != ESCAPES[2].1 && c as int != ESCAPES[3].1;
    assert c as int != ESCAPES[4].1 && c as int != ESCAPES[5].1 && c as int != ESCAPES[6].1;
    assert [c][1..] == "";
  }

  /** An escaped slash is read as a slash. */
  lemma SlashIsRead(tail: string)
    ensures Token(['\\', '/'] + tail) == Prepend(['/'], Token(tail))
  {
    TokenEscaped('/', tail);
  }

  /** None of the control characters with an escape is left raw in a written string, and a quotation mark
      stands there only behind its backslash. */
  lemma {:induction false} NothingRaw(s: string)
    ensures forall c | c in Escape(s) :: c as int != 0x08 && c as int != 0x09 && c as int != 0x0A && c as int != 0x0C && c as int != 0x0D
    ensures forall i | 0 <= i < |Escape(s)| && Escape(s)[i] == '"' :: i > 0 && Escape(s)[i - 1] == '\\'
  {
    if s != "" {
      NothingRaw(s[1..]);
      var head, tail := EscapeChar(s[0]), Escape(s[1..]);
      assert Escape(s) == head + tail;
      forall i | 0 <= i < |Escape(s)| && Escape(s)[i] == '"' ensures i > 0 && Escape(s)[i - 1] == '\\' {
        if i >= |head| {
          assert tail[i - |head|] == '"';
        }
      }
    }
  }

  /** escape_json. */
  method EscapeJson(s: string) returns (result: string)
    ensures result == Escape(s)
  {
    result := "";
    for i := 0 to |s|
      invariant result + Escape(s[i..]) == Escape(s)
    {
      assert s[i..][0] == s[i] && s[i..][1..] == s[i + 1..];
      result := result + EscapeChar(s[i]);
    }
  }

  /** One character, or one escape, of the token at a position. */
  lemma TokenAt(content: string, pos: nat)
    requires pos < |content|
    ensures Token(content[pos..]) ==
            if content[pos] == '"' then Some(("", content[pos + 1..]))
            else if content[pos] != '\\' then Prepend([content[pos]], Token(content[pos + 1..]))
            else if pos + 1 == |content| then None
            else Prepend([UnescapeChar(content[pos + 1])], Token(content[pos + 2..]))
  {
    assert content[pos..][1..] == content[pos + 1..];
    if pos + 1 < |content| {
      assert content[pos..][2..] == content[pos + 2..];
    }
  }

  /** parse_json_string_token: `pos` is left where the token, or the attempt, ended. */
  method ParseStringToken(content: string, start: nat) returns (ok: bool, pos: nat, out: string)
    requires start <= |content|
    ensures start <= pos <= |content|
    ensures ok <==> start < |content| && content[start] == '"' && Token(content[start + 1..]).Some?
    ensures ok ==> Token(content[start + 1..]) == Some((out, content[pos..]))
  {
    pos := start;
    out := "";
    if pos >= |content| || content[pos] != '"' {
      return false, pos, out;
    }
    pos := pos + 1;
    PrependNothing(Token(content[pos..]));
    while pos < |content|
      invariant start < pos <= |content|
      invariant Token(content[start + 1..]) == Prepend(out, Token(content[pos..]))
    {
      var c := content[pos];
      TokenAt(content, pos);
      pos := pos + 1;
      if c == '\\' {
        if pos >= |content| {
          return false, pos, out;
        }
        var esc := content[pos];
        pos := pos + 1;
        PrependTwice(out, [UnescapeChar(esc)], Token(content[pos..]));
        out := out + [UnescapeChar(esc)];
        continue;
      }
      if c == '"' {
        assert out + "" == out;
        return true, pos, out;
      }
      PrependTwice(out, [c], Token(content[pos..]));
      out := out + [c];
    }
    return false, pos, out;
  }

  // ---- building ----

  /** A value put into a builder, and the text it becomes. */
  datatype JsonValue = Str(s: string) | Int(n: int) | Long(l: int) | Bool(b: bool) | Null

  function Render(v: JsonValue): string {
    match v
    case Str(s) => "\"" + Escape(s) + "\""
    case Int(n) => ToString(n)
    case Long(n) => ToString(n)
    case Bool(b) => if b then "true" else "false"
    case Null => "null"
  }

  function Pair(key: string, raw: string): string {
    "\"" + Escape(key) + "\":" + raw
  }

  /** The pairs for the given keys with commas between them; `first` says that nothing precedes. */
  ghost function Listing(keys: seq<string>, data: map<string, string>, first: bool): string
    requires forall k | k in keys :: k in data
    decreases |keys|
  {
    if keys == [] then ""
    else Piece(keys[0], data[keys[0]], first) + Listing(keys[1..], data, false)
  }

  ghost function Built(data: map<string, string>): string {
    SortedCovers(data.Keys);
    "{" + Listing(Sorted(data.Keys), data, true) + "}"
  }

  /** What the loop of build appends for one entry. */
  function Piece(key: string, raw: string, first: bool): string {
    (if first then "" else ",") + Pair(key, raw)
  }

  lemma ListingHead(key: string, more: seq<string>, data: map<string, string>, first: bool)
    requires forall k | k in [key] + more :: k in data
    ensures key in data && forall k | k in more :: k in data
    ensures Listing([key] + more, data, first) == Piece(key, data[key], first) + Listing(more, data, false)
  {
    var keys := [key] + more;
    assert keys[0] in keys;
    forall k | k in more ensures k in data {
      assert k in keys;
    }
    assert keys[1..] == more;
  }

  lemma ListingStep(text: string, rest: set<string>, key: string, data: map<string, string>, first: bool)
    requires IsLeast(key, rest) && rest <= data.Keys
    ensures forall k | k in Sorted(rest) :: k in data
    ensures forall k | k in Sorted(rest - {key}) :: k in data
    ensures text + Listing(Sorted(rest), data, first) ==
            text + Piece(key, data[key], first) + Listing(Sorted(rest - {key}), data, false)
  {
    SortedCovers(rest);
    SortedCovers(rest - {key});
    SortedStep(rest, key);
    var more := Sorted(rest - {key});
    ListingHead(key, more, data, first);
    Associates(text, Piece(key, data[key], first), Listing(more, data, false));
  }

  /** Pieces with commas between them. */
  function Commas(pieces: seq<string>): string {
    if pieces == [] then "" else if |pieces| == 1 then pieces[0] else pieces[0] + "," + Commas(pieces[1..])
  }

  function PairsOf(keys: seq<string>, data: map<string, string>): seq<string>
    requires forall k | k in keys :: k in data
  {
    seq(|keys|, i requires 0 <= i < |keys| => Pair(keys[i], data[keys[i]]))
  }

  lemma {:induction false} ListingIsCommas(keys: seq<string>, data: map<string, string>)
    requires forall k | k in keys :: k in data
    ensures Listing(keys, data, true) == Commas(PairsOf(keys, data))
    ensures keys != [] ==> Listing(keys, data, false) == "," + Commas(PairsOf(keys, data))
  {
    if keys != [] {
      var pair := Pair(keys[0], data[keys[0]]);
      var tail := Commas(PairsOf(keys[1..], data));
      ListingIsCommas(keys[1..], data);
      assert PairsOf(keys, data)[1..] == PairsOf(keys[1..], data);
      if |keys| == 1 {
        CommaPieces(pair, "");
      } else {
        CommaPieces(pair, "," + tail);
        Associates(pair, ",", tail);
      }
    }
  }

  lemma CommaPieces(pair: string, rest: string)
    ensures "" + pair + rest == pair + rest && pair + "" == pair
    ensures "," + pair + rest == "," + (pair + rest)
  {
  }

  /** The object that build writes: the pairs come once for each key, in ascending order of the keys,
      with commas between; there is exactly one such text. */
  lemma BuiltListsKeysInOrder(data: map<string, string>, keys: seq<string>)
    ensures Ascends(Sorted(data.Keys)) && |Sorted(data.Keys)| == |data| && forall k :: k in Sorted(data.Keys) <==> k in data
    ensures Ascends(keys) && (forall k :: k in keys <==> k in data) ==> Built(data) == "{" + Commas(PairsOf(keys, data)) + "}"
  {
    SortedAscends(data.Keys);
    SortedCovers(data.Keys);
    assert |data.Keys| == |data|;
    if Ascends(keys) && (forall k :: k in keys <==> k in data) {
      AscendingIsSorted(keys, data.Keys);
      ListingIsCommas(keys, data);
    }
  }

  class JsonBuilder {
    var data: map<string, string>

    constructor ()
      ensures data == map[]
    {
      data := map[];
    }

    method Add(key: string, v: JsonValue)
      modifies this
      ensures data == old(data)[key := Render(v)]
    {
      match v
      case Str(s) =>
        var escaped := EscapeJson(s);
        data := data[key := "\"" + escaped + "\""];
      case Int(n) => data := data[key := ToString(n)];
      case Long(n) => data := data[key := ToString(n)];
      case Bool(b) => data := data[key := if b then "true" else "false"];
      case Null => data := data[key := "null"];
    }

    /** Append one pair to the text built so far. */
    method AppendPair(text: string, key: string, first: bool) returns (longer: string)
      requires key in data
      ensures longer == text + Piece(key, data[key], first)
    {
      longer := text;
      if !first {
        longer := longer + ",";
      }
      var escaped := EscapeJson(key);
      longer := longer + "\"" + escaped + "\":" + data[key];
    }

    method Build() returns (text: string)
      ensures text == Built(data)
    {
      text := "{";
      var rest := data.Keys;
      var first := true;
      ghost var whole := "{" + Listing(Sorted(data.Keys), data, true) by {
        SortedCovers(data.Keys);
      }
      SortedCovers(rest);
      while rest != {}
        invariant rest <= data.Keys
        invariant forall k | k in Sorted(rest) :: k in data
        invariant text + Listing(Sorted(rest), data, first) == whole
        decreases |rest|
      {
        LeastExists(rest);
        var key :| IsLeast(key, rest);
        ListingStep(text, rest, key, data, first);
        text := AppendPair(text, key, first);
        rest := rest - {key};
        first := false;
      }
      text := text + "}";
    }
  }

  // ---- parsing ----

  predicate IsBlank(c: char) {
    c == ' ' || c == '\t' || c == '\n' || c == '\r'
  }

  function Trim(s: string): string {
    if s == "" then ""
    else if IsBlank(s[0]) then Trim(s[1..])
    else if IsBlank(s[|s| - 1]) then Trim(s[..|s| - 1])
    else s
  }

  /** find_first_of(",}"), or the end. */
  function ValueEnd(s: string): (i: nat)
    ensures i <= |s|
  {
    if s == "" || s[0] == ',' || s[0] == '}' then 0 else 1 + ValueEnd(s[1..])
  }

  function SkipComma(s: string): string {
    if s != "" && s[0] == ',' then s[1..] else s
  }

  /** The value at the head of s, and what follows it; None when its string token does not end. */
  function ValueOf(s: string): (r: Option<(string, string)>)
    requires s != ""
    ensures r.Some? ==> |r.value.1| <= |s|
  {
    if s[0] == '"' then Token(s[1..])
    else Some((Trim(s[..ValueEnd(s)]), s[ValueEnd(s)..]))
  }

  /** The next string token of s, wherever it starts, and what follows it. */
  function KeyOf(s: string): (r: Option<(string, string)>)
    ensures r.Some? ==> |r.value.1| < |s|
  {
    var open := IndexOf(s, '"');
    if open == |s| then None else Token(s[open + 1..])
  }

  /** The value after the next colon of s, and what follows it. */
  function MemberOf(s: string): (r: Option<(string, string)>)
    ensures r.Some? ==> |r.value.1| < |s|
  {
    var colon := IndexOf(s, ':');
    if colon == |s| then None
    else
      var v := SkipSpaces(s[colon + 1..]);
      if v == "" then None else ValueOf(v)
  }

  /** The first pair in s: its key, its value and the rest; None where the loop breaks. */
  function NextPair(s: string): (r: Option<(string, string, string)>)
    ensures r.Some? ==> |r.value.2| < |s|
  {
    match KeyOf(s)
    case None => None
    case Some((key, after)) =>
      match MemberOf(after)
      case None => None
      case Some((value, rest)) => Some((key, value, SkipComma(rest)))
  }

  /** Later pairs overwrite earlier ones. */
  function Pairs(s: string, data: map<string, string>): map<string, string>
    decreases |s|
  {
    match NextPair(s)
    case None => data
    case Some((key, value, rest)) => Pairs(rest, data[key := value])
  }

  function Parsed(json: string): map<string, string> {
    var content := Trim(json);
    if content == "" || content[0] != '{' || content[|content| - 1] != '}' then map[]
    else Pairs(content[1..|content| - 1], map[])
  }

  method SkipBlanks(content: string, start: nat) returns (pos: nat)
    requires start <= |content|
    ensures start <= pos <= |content| && content[pos..] == SkipSpaces(content[start..])
  {
    pos := start;
    while pos < |content| && IsSpace(content[pos])
      invariant start <= pos <= |content|
      invariant SkipSpaces(content[pos..]) == SkipSpaces(content[start..])
    {
      SliceOfSlice(content, pos, 1);
      pos := pos + 1;
    }
  }

  /** The branch on the value's first character. */
  method ReadValue(content: string, start: nat) returns (ok: bool, value: string, pos: nat)
    requires start < |content|
    ensures pos <= |content|
    ensures ok == ValueOf(content[start..]).Some?
    ensures ok ==> ValueOf(content[start..]) == Some((value, content[pos..]))
  {
    if content[start] == '"' {
      SliceOfSlice(content, start, 1);
      ok, pos, value := ParseStringToken(content, start);
    } else {
      pos := start + ValueEnd(content[start..]);
      SliceOfSlice(content, start, pos - start);
      assert content[start..][..pos - start] == content[start..pos];
      return true, Trim(content[start..pos]), pos;
    }
  }

  method ReadKey(content: string, start: nat) returns (ok: bool, key: string, pos: nat)
    requires start <= |content|
    ensures pos <= |content| && ok == KeyOf(content[start..]).Some?
    ensures ok ==> KeyOf(content[start..]) == Some((key, content[pos..]))
  {
    key := "";
    pos := start + IndexOf(content[start..], '"');
    if pos == |content| {
      return false, key, pos;
    }
    SliceOfSlice(content, start, pos - start + 1);
    ok, pos, key := ParseStringToken(content, pos);
  }

  method ReadMember(content: string, start: nat) returns (ok: bool, value: string, pos: nat)
    requires start <= |content|
    ensures pos <= |content| && ok == MemberOf(content[start..]).Some?
    ensures ok ==> MemberOf(content[start..]) == Some((value, content[pos..]))
  {
    value := "";
    pos := start + IndexOf(content[start..], ':');
    if pos == |content| {
      return false, value, pos;
    }
    SliceOfSlice(content, start, pos - start + 1);
    pos := SkipBlanks(content, pos + 1);
    if pos == |content| {
      return false, value, pos;
    }
    ok, value, pos := ReadValue(content, pos);
  }

  /** One turn of the loop; ok is false where it breaks. */
  method ReadPair(content: string, start: nat) returns (ok: bool, key: string, value: string, pos: nat)
    requires start <= |content|
    ensures pos <= |content| && ok == NextPair(content[start..]).Some?
    ensures ok ==> start < pos && NextPair(content[start..]) == Some((key, value, content[pos..]))
  {
    value := "";
    ok, key, pos := ReadKey(content, start);
    if !ok {
      return;
    }
    ok, value, pos := ReadMember(content, pos);
    if ok {
      pos := PassComma(content, pos);
    }
  }

  method PassComma(content: string, start: nat) returns (pos: nat)
    requires start <= |content|
    ensures start <= pos <= |content| && content[pos..] == SkipComma(content[start..])
  {
    pos := start;
    if pos < |content| && content[pos] == ',' {
      SliceOfSlice(content, pos, 1);
      pos := pos + 1;
    }
  }

  /** JsonParser::parse. */
  method ParseFlat(json: string) returns (data: map<string, string>)
    ensures data == Parsed(json)
  {
    data := map[];
    var content := Trim(json);
    if content == "" || content[0] != '{' || content[|content| - 1] != '}' {
      return;
    }
    content := content[1..|content| - 1];
    var pos := 0;
    assert content[0..] == content;
    while pos < |content|
      invariant 0 <= pos <= |content|
      invariant Pairs(content[pos..], data) == Pairs(content, map[])
    {
      ghost var here := pos;
      var ok, key, value;
      ok, key, value, pos := ReadPair(content, pos);
      if !ok {
        return;
      }
      data := data[key := value];
    }
  }

  // ---- the round trip ----

  /** What get_string returns for a value: a string itself, anything else as it was printed. */
  function Plain(v: JsonValue): string {
    if v.Str? then v.s else Render(v)
  }

  /** The text of a number, a boolean or null: nothing in it ends or pads a value. */
  ghost predicate Bare(raw: string) {
    raw != "" && forall c | c in raw :: c != ',' && c != '}' && c != '"' && !IsSpace(c)
  }

  lemma RenderedIsBare(v: JsonValue)
    requires !v.Str?
    ensures Bare(Render(v))
  {
    match v
    case Int(n) => PrintedIsBare(n);
    case Long(n) => PrintedIsBare(n);
    case Bool(b) =>
    case Null =>
  }

  lemma PrintedIsBare(n: int)
    ensures Bare(ToString(n))
  {
    var digits := Digits(if n < 0 then -n else n);
    DigitsRoundTrip(if n < 0 then -n else n);
    assert forall c | c in digits :: IsDigit(c);
    assert n < 0 ==> forall c | c in "-" + digits :: c == '-' || c in digits;
  }

  lemma {:induction false} BareEnds(raw: string, rest: string)
    requires (forall c | c in raw :: c != ',' && c != '}') && (rest != "" ==> rest[0] == ',')
    ensures ValueEnd(raw + rest) == |raw|
  {
    if raw == "" {
      assert raw + rest == rest;
    } else {
      assert raw[0] in raw;
      assert (raw + rest)[1..] == raw[1..] + rest;
      forall c | c in raw[1..] ensures c in raw {
      }
      BareEnds(raw[1..], rest);
    }
  }

  lemma StringReads(s: string, rest: string)
    ensures Render(Str(s)) != "" && Render(Str(s))[0] == '"'
    ensures ValueOf(Render(Str(s)) + rest) == Some((s, rest))
  {
    var tail := Escape(s) + (['"'] + rest);
    assert Render(Str(s)) + rest == ['"'] + tail;
    assert (['"'] + tail)[1..] == tail;
    TokenReadsEscape(s, rest);
  }

  lemma BareReads(raw: string, rest: string)
    requires Bare(raw) && (rest != "" ==> rest[0] == ',')
    ensures raw[0] in raw && ValueOf(raw + rest) == Some((raw, rest))
  {
    BareEnds(raw, rest);
    assert raw[0] in raw && raw[|raw| - 1] in raw;
    assert (raw + rest)[..|raw|] == raw && (raw + rest)[|raw|..] == rest;
  }

  lemma ValueReads(v: JsonValue, rest: string)
    requires rest != "" ==> rest[0] == ','
    ensures Render(v) != "" && !IsSpace(Render(v)[0])
    ensures ValueOf(Render(v) + rest) == Some((Plain(v), rest))
  {
    if v.Str? {
      StringReads(v.s, rest);
    } else {
      RenderedIsBare(v);
      BareReads(Render(v), rest);
    }
  }

  lemma NextPairReads(key: string, v: JsonValue, rest: string)
    requires rest != "" ==> rest[0] == ','
    ensures NextPair(Pair(key, Render(v)) + rest) == Some((key, Plain(v), SkipComma(rest)))
  {
    var value := Render(v) + rest;
    var after := [':'] + value;
    var s := Pair(key, Render(v)) + rest;
    PairSplits(key, Render(v), rest);
    TokenReadsEscape(key, after);
    ValueReads(v, rest);
    assert value[0] == Render(v)[0];
    assert MemberOf(after) == Some((Plain(v), rest));
  }

  lemma PairSplits(key: string, raw: string, rest: string)
    ensures var s := Pair(key, raw) + rest;
            && s[0] == '"' && s[1..] == Escape(key) + (['"'] + ([':'] + (raw + rest)))
    ensures ([':'] + (raw + rest))[1..] == raw + rest
  {
  }

  ghost function Rendered(vals: map<string, JsonValue>): map<string, string> {
    map k | k in vals :: Render(vals[k])
  }

  lemma ListingAfterComma(keys: seq<string>, data: map<string, string>)
    requires forall k | k in keys :: k in data
    ensures var rest := Listing(keys, data, false);
            (rest != "" ==> rest[0] == ',') && SkipComma(rest) == Listing(keys, data, true)
  {
    if keys != [] {
      CommaFirst(keys[0], data[keys[0]], Listing(keys[1..], data, false));
    }
  }

  lemma CommaFirst(key: string, raw: string, rest: string)
    ensures var listed := Piece(key, raw, false) + rest;
            listed[0] == ',' && SkipComma(listed) == Piece(key, raw, true) + rest
  {
    var listed := Piece(key, raw, false) + rest;
    assert listed[1..] == Piece(key, raw, true) + rest;
  }

  /** One turn of the parser's loop over what the builder wrote for one key. */
  lemma PairsStep(key: string, more: seq<string>, vals: map<string, JsonValue>, acc: map<string, string>)
    requires forall k | k in [key] + more :: k in vals
    ensures key in vals && forall k | k in more :: k in vals
    ensures Pairs(Listing([key] + more, Rendered(vals), true), acc) ==
            Pairs(Listing(more, Rendered(vals), true), acc[key := Plain(vals[key])])
  {
    var data := Rendered(vals);
    ListingHead(key, more, data, true);
    ListingAfterComma(more, data);
    PieceFirst(key, data[key]);
    NextPairReads(key, vals[key], Listing(more, data, false));
  }

  lemma PieceFirst(key: string, raw: string)
    ensures Piece(key, raw, true) == Pair(key, raw)
  {
    assert "" + Pair(key, raw) == Pair(key, raw);
  }

  lemma {:induction false} PairsReadListing(keys: seq<string>, vals: map<string, JsonValue>, acc: map<string, string>)
    requires forall k | k in keys :: k in vals
    ensures var r := Pairs(Listing(keys, Rendered(vals), true), acc);
            forall k :: (k in r <==> k in acc || k in keys) && (k in r ==> r[k] == if k in keys then Plain(vals[k]) else acc[k])
    decreases |keys|
  {
    if keys != [] {
      assert keys == [keys[0]] + keys[1..];
      PairsStep(keys[0], keys[1..], vals, acc);
      PairsReadListing(keys[1..], vals, acc[keys[0] := Plain(vals[keys[0]])]);
    }
  }

  lemma BracesStripped(inner: string)
    ensures var json := "{" + inner + "}";
            Trim(json) == json && Parsed(json) == Pairs(inner, map[])
  {
    var json := "{" + inner + "}";
    assert json[0] == '{' && json[|json| - 1] == '}';
    assert json[1..|json| - 1] == inner;
  }

  lemma BuiltParses(data: map<string, string>)
    ensures forall k | k in Sorted(data.Keys) :: k in data
    ensures Parsed(Built(data)) == Pairs(Listing(Sorted(data.Keys), data, true), map[])
  {
    SortedCovers(data.Keys);
    BracesStripped(Listing(Sorted(data.Keys), data, true));
  }

  /** For every map of values, with arbitrary characters in keys and strings, parsing what the builder
      builds yields exactly the keys, each with its own value. */
  lemma RoundTrip(vals: map<string, JsonValue>)
    ensures Parsed(Built(Rendered(vals))) == map k | k in vals :: Plain(vals[k])
  {
    var data := Rendered(vals);
    SortedCovers(data.Keys);
    BuiltParses(data);
    PairsReadListing(Sorted(data.Keys), vals, map[]);
    SamePlain(Parsed(Built(data)), vals);
  }

  lemma SamePlain(r: map<string, string>, vals: map<string, JsonValue>)
    requires forall k :: (k in r <==> k in vals) && (k in r ==> r[k] == Plain(vals[k]))
    ensures r == map k | k in vals :: Plain(vals[k])
  {
  }

  /** Booleans and null are the literals of section 3 of RFC 8259, numbers their decimal digits. */
  lemma LiteralsAsRfc(vals: map<string, JsonValue>, key: string)
    requires key in vals
    ensures var data := Parsed(Built(Rendered(vals)));
            && key in data
            && (vals[key] == Null ==> data[key] == "null")
            && (vals[key] == Bool(true) ==> data[key] == "true")
            && (vals[key] == Bool(false) ==> data[key] == "false")
            && (vals[key].Str? ==> data[key] == vals[key].s)
  {
    RoundTrip(vals);
  }

  // ---- the typed getters ----

  function GetInt(data: map<string, string>, key: string, default: int): int {
    if key !in data then default
    else match ParseInt(data[key], INT_MIN, INT_MAX) case Some(n) => n case None => default
  }

  function GetLong(data: map<string, string>, key: string, default: int): int {
    if key !in data then default
    else match ParseInt(data[key], LONG_MIN, LONG_MAX) case Some(n) => n case None => default
  }

  function GetBool(data: map<string, string>, key: string, default: bool): bool {
    if key !in data then default else data[key] == "true"
  }

  /** The getters return what was built: ints and long longs over their whole ranges, booleans, and an
      int through get_long; a long long that is no int makes get_int fall back to its default. */
  lemma GettersReturnWhatWasBuilt(vals: map<string, JsonValue>, key: string, n: int, default: int)
    requires key in vals && LONG_MIN <= n <= LONG_MAX
    requires vals[key] == Int(n) || vals[key] == Long(n)
    ensures var data := Parsed(Built(Rendered(vals)));
            && GetLong(data, key, default) == n
            && GetInt(data, key, default) == if INT_MIN <= n <= INT_MAX then n else default
  {
    RoundTrip(vals);
    ParsePrintedWhole(n, INT_MIN, INT_MAX);
    ParsePrintedWhole(n, LONG_MIN, LONG_MAX);
  }

  lemma BoolsReturnWhatWasBuilt(vals: map<string, JsonValue>, key: string, b: bool, default: bool)
    requires key in vals && vals[key] == Bool(b)
    ensures GetBool(Parsed(Built(Rendered(vals))), key, default) == b
  {
    RoundTrip(vals);
    assert b ==> Render(vals[key])[0] == 't';
    assert !b ==> Render(vals[key])[0] == 'f';
  }
}
