/** The shape of an HTTP/1.1 message (section 2.1 of RFC 9112): lines ended by CRLF, an empty line, a body. */
module HttpText {
  import opened Common
  import opened Text

  const CRLF: string := "\r\n"
  const BLANK: string := "\r\n\r\n"

  /** The lines of a header block and the empty line that ends it. */
  function Head(lines: seq<string>): string {
    if lines == [] then CRLF else lines[0] + CRLF + Head(lines[1..])
  }

  ghost predicate NoBreaks(s: string) {
    forall i | 0 <= i < |s| :: s[i] != '\r' && s[i] != '\n'
  }

  ghost predicate HeadLines(lines: seq<string>) {
    lines != [] && forall i | 0 <= i < |lines| :: lines[i] != "" && NoBreaks(lines[i])
  }

  lemma AtMeans(s: string, k: nat, pat: string, j: nat)
    requires j < |pat|
    ensures At(s, k, pat) ==> k + j < |s| && s[k + j] == pat[j]
  {
    if At(s, k, pat) {
      assert s[k..k + |pat|][j] == s[k + j];
    }
  }

  lemma AtShift(a: string, t: string, pat: string, k: nat)
    ensures At(a + t, |a| + k, pat) <==> At(t, k, pat)
  {
    if k + |pat| <= |t| {
      assert (a + t)[|a| + k..|a| + k + |pat|] == t[k..k + |pat|];
    }
  }

  /** Text in which no occurrence starts can be skipped. */
  lemma FindAfter(a: string, t: string, pat: string)
    requires forall k: nat | k < |a| :: !At(a + t, k, pat)
    ensures Find(a + t, pat) == match Find(t, pat) case Some(i) => Some(|a| + i) case None => None
  {
    FindIsFirst(t, pat);
    forall k: nat ensures At(a + t, |a| + k, pat) <==> At(t, k, pat) {
      AtShift(a, t, pat, k);
    }
    if Find(t, pat).Some? {
      forall k: nat | k < |a| + Find(t, pat).value ensures !At(a + t, k, pat) {
        if |a| <= k {
          assert !At(t, k - |a|, pat);
        }
      }
      FoundAt(a + t, pat, |a| + Find(t, pat).value);
    } else {
      forall k: nat ensures !At(a + t, k, pat) {
        if |a| <= k {
          assert !At(t, k - |a|, pat);
        }
      }
      FoundNowhere(a + t, pat);
    }
  }

  /** A pattern starting with CR does not start inside a line. */
  lemma BreakEndsLine(line: string, rest: string, pat: string)
    requires NoBreaks(line) && pat != "" && pat[0] == '\r' && At(rest, 0, pat)
    ensures Find(line + rest, pat) == Some(|line|)
  {
    forall k: nat | k < |line| ensures !At(line + rest, k, pat) {
      assert (line + rest)[k] != pat[0];
    }
    FindAfter(line, rest, pat);
  }

  lemma NoBlankAcross(line: string, rest: string, k: nat)
    requires NoBreaks(line) && rest != "" && rest[0] != '\r' && k < |line| + 2
    ensures !At(line + CRLF + rest, k, BLANK)
  {
    var s := line + CRLF + rest;
    AtMeans(s, k, BLANK, 0);
    AtMeans(s, k, BLANK, 1);
    AtMeans(s, k, BLANK, 2);
  }

  /** The first CRLFCRLF of a message is the one that ends its header block. */
  lemma {:induction false} BlankLineEndsHead(lines: seq<string>, body: string)
    requires HeadLines(lines)
    ensures |Head(lines)| >= 4 && Find(Head(lines) + body, BLANK) == Some(|Head(lines)| - 4)
  {
    if |lines| == 1 {
      var rest := CRLF + (CRLF + body);
      assert Head(lines[1..]) == CRLF;
      assert Head(lines) + body == lines[0] + rest;
      assert rest[..4] == BLANK;
      BreakEndsLine(lines[0], rest, BLANK);
    } else {
      var t := Head(lines[1..]) + body;
      BlankLineEndsHead(lines[1..], body);
      assert Head(lines) + body == lines[0] + CRLF + t;
      assert t[0] == lines[1][0];
      forall k: nat | k < |lines[0] + CRLF| ensures !At(lines[0] + CRLF + t, k, BLANK) {
        NoBlankAcross(lines[0], t, k);
      }
      FindAfter(lines[0] + CRLF, t, BLANK);
    }
  }

  lemma BlankLineEndsBareHead(lines: seq<string>)
    requires HeadLines(lines)
    ensures Find(Head(lines), BLANK) == Some(|Head(lines)| - 4)
  {
    BlankLineEndsHead(lines, "");
    AppendNothing(Head(lines));
  }

  lemma AppendNothing(s: string)
    ensures s + "" == s
  {
  }

  lemma NotAcross(line: string, rest: string, pat: string, k: nat)
    requires NoBreaks(line) && NoBreaks(pat) && pat != "" && k < |line| + 2
    requires !At(line, k, pat)
    ensures !At(line + CRLF + rest, k, pat)
  {
    var s := line + CRLF + rest;
    if k + |pat| <= |line| {
      assert s[k..k + |pat|] == line[k..k + |pat|];
    } else {
      AtMeans(s, k, pat, if k <= |line| then |line| - k else 0);
    }
  }

  /** A pattern without line breaks that no line holds is found in the body or not at all. */
  lemma {:induction false} FoundInNoLine(lines: seq<string>, pat: string)
    requires NoBreaks(pat) && pat != ""
    requires forall j | 0 <= j < |lines| :: NoBreaks(lines[j]) && Find(lines[j], pat) == None
    ensures Find(Head(lines), pat) == None
  {
    if lines == [] {
      forall k: nat ensures !At(CRLF, k, pat) {
        AtMeans(CRLF, k, pat, 0);
      }
      FoundNowhere(CRLF, pat);
    } else {
      FoundInNoLine(lines[1..], pat);
      FindIsFirst(lines[0], pat);
      var t := Head(lines[1..]);
      forall i: nat | i < |lines[0] + CRLF| ensures !At(lines[0] + CRLF + t, i, pat) {
        NotAcross(lines[0], t, pat, i);
      }
      FindAfter(lines[0] + CRLF, t, pat);
    }
  }

  lemma {:induction false} HeadLength(lines: seq<string>)
    ensures |Head(lines)| >= 2
  {
  }
}
