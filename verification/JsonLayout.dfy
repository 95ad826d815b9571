/** Flat JSON objects as any writer may lay them out: the blanks of section 2 of RFC 8259 around every
    token (JsonParser::parse in src/json_helper.cpp). */
module JsonLayout {
  import opened Common
  import opened Text
  import opened Json

  /** One member, and the blanks before the key, around the colon and after the value. */
  datatype Member = Member(before: string, key: string, mid: string, gap: string, v: JsonValue, after: string)

  /** The blanks of section 2 of RFC 8259: space, horizontal tab, line feed and carriage return. */
  predicate RfcBlank(c: char) {
    c as int == 0x20 || c as int == 0x09 || c as int == 0x0A || c as int == 0x0D
  }

  ghost predicate Blank(s: string) {
    forall c | c in s :: RfcBlank(c)
  }

  ghost predicate MemberOk(m: Member) {
    Blank(m.before) && Blank(m.mid) && Blank(m.gap) && Blank(m.after)
  }

  /** The member from the quotation mark of its key on. */
  function FromKey(m: Member): string {
    "\"" + (Escape(m.key) + (['"'] + FromColon(m)))
  }

  function FromColon(m: Member): string {
    m.mid + (":" + (m.gap + (Render(m.v) + m.after)))
  }

  /** The members with commas between them. */
  function Members(ms: seq<Member>): string {
    if ms == [] then ""
    else ms[0].before + (FromKey(ms[0]) + (if |ms| == 1 then "" else "," + Members(ms[1..])))
  }

  /** The last value of a key wins. */
  function ValuesOf(ms: seq<Member>, acc: map<string, string>): map<string, string> {
    if ms == [] then acc else ValuesOf(ms[1..], acc[ms[0].key := Plain(ms[0].v)])
  }

  lemma MarkFirst(prefix: string, mark: char, rest: string)
    requires forall c | c in prefix :: c != mark
    ensures IndexOf(prefix + ([mark] + rest), mark) == |prefix|
  {
    var s := prefix + ([mark] + rest);
    assert s[|prefix|] == mark;
    forall k | 0 <= k < |prefix| ensures s[k] != mark {
      assert s[k] == prefix[k] && prefix[k] in prefix;
    }
    IndexOfFirst(s, mark, |prefix|);
  }

  lemma AfterMark(prefix: string, mark: char, rest: string)
    ensures (prefix + ([mark] + rest))[|prefix| + 1..] == rest
  {
  }

  lemma QuoteFirst(prefix: string, rest: string)
    requires forall c | c in prefix :: c != '"'
    ensures IndexOf(prefix + ("\"" + rest), '"') == |prefix| && (prefix + ("\"" + rest))[|prefix| + 1..] == rest
  {
    MarkFirst(prefix, '"', rest);
    AfterMark(prefix, '"', rest);
  }

  lemma BlankHasNone(s: string)
    requires Blank(s)
    ensures forall c | c in s :: c != ':' && c != '"'
  {
    forall c | c in s ensures c != ':' && c != '"' {
      assert RfcBlank(c);
    }
  }

  lemma ColonFirst(mid: string, rest: string)
    requires Blank(mid)
    ensures IndexOf(mid + (":" + rest), ':') == |mid| && (mid + (":" + rest))[|mid| + 1..] == rest
  {
    BlankHasNone(mid);
    MarkFirst(mid, ':', rest);
    AfterMark(mid, ':', rest);
  }

  lemma NoQuote(prefix: string)
    requires forall c | c in prefix :: c != '"'
    ensures NextPair(prefix).None?
  {
    forall k | 0 <= k < |prefix| ensures prefix[k] != '"' {
      assert prefix[k] in prefix;
    }
  }

  // ---- trimming ----

  lemma {:induction false} TrimRight(s: string, blanks: string)
    requires s != "" && !IsBlank(s[0]) && !IsBlank(s[|s| - 1]) && Blank(blanks)
    ensures Trim(s + blanks) == s
    decreases |blanks|
  {
    var t := s + blanks;
    if blanks == "" {
      assert t == s;
    } else {
      assert blanks[|blanks| - 1] in blanks && t[|t| - 1] == blanks[|blanks| - 1];
      assert t[..|t| - 1] == s + blanks[..|blanks| - 1];
      TrimRight(s, blanks[..|blanks| - 1]);
    }
  }

  lemma {:induction false} TrimLeft(blanks: string, s: string)
    requires Blank(blanks) && s != "" && !IsBlank(s[0])
    ensures Trim(blanks + s) == Trim(s)
  {
    if blanks == "" {
      assert blanks + s == s;
    } else {
      assert blanks[0] in blanks && (blanks + s)[1..] == blanks[1..] + s;
      TrimLeft(blanks[1..], s);
    }
  }

  // ---- one member ----

  /** What is left of the text when a member's value has been read: its trailing blanks, if the value was a
      string, and the rest. */
  function Left(m: Member, rest: string): string {
    if m.v.Str? then m.after + rest else rest
  }

  lemma ValueIsRead(m: Member, rest: string)
    requires MemberOk(m) && (rest != "" ==> rest[0] == ',')
    ensures Render(m.v) != "" && !IsSpace(Render(m.v)[0])
    ensures ValueOf(Render(m.v) + (m.after + rest)) == Some((Plain(m.v), Left(m, rest)))
  {
    if m.v.Str? {
      StringReads(m.v.s, m.after + rest);
    } else {
      RenderedIsBare(m.v);
      BareIsRead(Render(m.v), m.after, rest);
    }
  }

  lemma BareIsRead(raw: string, after: string, rest: string)
    requires Bare(raw) && Blank(after) && (rest != "" ==> rest[0] == ',')
    ensures !IsSpace(raw[0]) && ValueOf(raw + (after + rest)) == Some((raw, rest))
  {
    var whole := raw + after;
    assert raw + (after + rest) == whole + rest;
    forall c | c in whole ensures c != ',' && c != '}' {
      assert c in raw || c in after;
    }
    BareEnds(whole, rest);
    assert raw[0] in raw && raw[|raw| - 1] in raw;
    assert (whole + rest)[..|whole|] == whole && (whole + rest)[|whole|..] == rest;
    TrimRight(raw, after);
  }

  lemma BlankIsSpace(s: string)
    requires Blank(s)
    ensures forall c | c in s :: IsSpace(c)
  {
  }

  lemma MemberIsRead(m: Member, rest: string)
    requires MemberOk(m) && (rest != "" ==> rest[0] == ',')
    ensures MemberOf(FromColon(m) + rest) == Some((Plain(m.v), Left(m, rest)))
  {
    var value := Render(m.v) + (m.after + rest);
    ValueIsRead(m, rest);
    assert value[0] == Render(m.v)[0];
    FromColonIs(m, rest);
    ColonFirst(m.mid, m.gap + value);
    BlankIsSpace(m.gap);
    SpacesAreSkipped(m.gap, value);
  }

  lemma FromColonIs(m: Member, rest: string)
    ensures FromColon(m) + rest == m.mid + (":" + (m.gap + (Render(m.v) + (m.after + rest))))
  {
    var v := Render(m.v);
    Associates(v, m.after, rest);
    Associates(m.gap, v + m.after, rest);
    Associates(":", m.gap + (v + m.after), rest);
    Associates(m.mid, ":" + (m.gap + (v + m.after)), rest);
  }

  lemma FromKeyIs(m: Member, rest: string)
    ensures FromKey(m) + rest == "\"" + (Escape(m.key) + (['"'] + (FromColon(m) + rest)))
  {
    Associates(['"'], FromColon(m), rest);
    Associates(Escape(m.key), ['"'] + FromColon(m), rest);
    Associates("\"", Escape(m.key) + (['"'] + FromColon(m)), rest);
  }

  /** Whatever blanks and commas come first, the next pair is the member. */
  lemma PairIsRead(prefix: string, m: Member, rest: string)
    requires MemberOk(m) && (rest != "" ==> rest[0] == ',') && forall c | c in prefix :: c != '"'
    ensures NextPair(prefix + (FromKey(m) + rest)) == Some((m.key, Plain(m.v), SkipComma(Left(m, rest))))
  {
    FromKeyIs(m, rest);
    var token := Escape(m.key) + (['"'] + (FromColon(m) + rest));
    QuoteFirst(prefix, token);
    TokenReadsEscape(m.key, FromColon(m) + rest);
    MemberIsRead(m, rest);
  }

  /** What comes before the next member's key once its predecessor has been read. */
  function Prefix(m: Member): string {
    if m.v.Str? && m.after != "" then m.after + "," else ""
  }

  lemma RestAfter(m: Member, more: string)
    requires MemberOk(m)
    ensures SkipComma(Left(m, "," + more)) == Prefix(m) + more
    ensures SkipComma(Left(m, "")) == if m.v.Str? then m.after else ""
    ensures forall c | c in Prefix(m) :: c != '"'
  {
    var s := Left(m, "," + more);
    if m.v.Str? && m.after != "" {
      assert m.after[0] in m.after && s[0] == m.after[0];
      assert s == m.after + "," + more;
    } else {
      assert m.v.Str? ==> m.after + ("," + more) == "," + more;
      assert s[1..] == more && "" + more == more;
    }
    var t := Left(m, "");
    assert m.after + "" == m.after;
    if t != "" {
      assert t[0] in m.after;
    }
  }

  lemma {:induction false} MembersAreRead(prefix: string, ms: seq<Member>, acc: map<string, string>)
    requires (forall i | 0 <= i < |ms| :: MemberOk(ms[i])) && forall c | c in prefix :: c != '"'
    ensures Pairs(prefix + Members(ms), acc) == ValuesOf(ms, acc)
    decreases |ms|
  {
    if ms == [] {
      assert prefix + "" == prefix;
      NoQuote(prefix);
    } else {
      var m := ms[0];
      FirstIsRead(prefix, m, if |ms| == 1 then "" else "," + Members(ms[1..]), acc);
      RestAfter(m, Members(ms[1..]));
      if |ms| == 1 {
        NoQuote(if m.v.Str? then m.after else "");
      } else {
        MembersAreRead(Prefix(m), ms[1..], acc[m.key := Plain(m.v)]);
      }
    }
  }

  lemma FirstIsRead(prefix: string, m: Member, rest: string, acc: map<string, string>)
    requires MemberOk(m) && (rest != "" ==> rest[0] == ',') && forall c | c in prefix :: c != '"'
    ensures Pairs(prefix + (m.before + (FromKey(m) + rest)), acc) == Pairs(SkipComma(Left(m, rest)), acc[m.key := Plain(m.v)])
  {
    var front := prefix + m.before;
    forall c | c in front ensures c != '"' {
      assert c in prefix || c in m.before;
    }
    Associates(prefix, m.before, FromKey(m) + rest);
    PairIsRead(front, m, rest);
  }

  /** A flat object as text. */
  function Object(lead: string, inner: string, ms: seq<Member>, trail: string): string {
    lead + ("{" + (inner + Members(ms)) + "}" + trail)
  }

  /** Every flat object is read, however it is laid out: the last value of each key, strings unescaped,
      anything else as it was written. */
  lemma EveryLayoutIsRead(lead: string, inner: string, ms: seq<Member>, trail: string)
    requires Blank(lead) && Blank(inner) && Blank(trail) && forall i | 0 <= i < |ms| :: MemberOk(ms[i])
    ensures Parsed(Object(lead, inner, ms, trail)) == ValuesOf(ms, map[])
  {
    BracesFound(lead, inner + Members(ms), trail);
    MembersAreRead(inner, ms, map[]);
  }

  lemma BracesFound(lead: string, content: string, trail: string)
    requires Blank(lead) && Blank(trail)
    ensures Parsed(lead + ("{" + content + "}" + trail)) == Pairs(content, map[])
  {
    var core := "{" + content + "}";
    assert core[0] == '{' && core[|core| - 1] == '}';
    assert (core + trail)[0] == '{';
    TrimLeft(lead, core + trail);
    TrimRight(core, trail);
    assert core[1..|core| - 1] == content;
  }
}
