/** The M3U8 playlist reader and writer (scaffold/src/suipeg.cpp), for the subset of
    section 4 of RFC 8216 that it knows: EXTM3U (4.3.1.1), EXTINF (4.3.2.1) and
    EXT-X-ENDLIST (4.3.3.4). */
module Playlist {
  import opened Base

  datatype Doc = Doc(headers: seq<string>, pieces: seq<(string, string)>)

  const EMPTY_DOC := Doc([], [])

  const EXTM3U := "#EXTM3U"
  const ENDLIST := "#EXT-X-ENDLIST"
  const EXTINF := "#EXTINF:"

  // ---------------------------------------------------------------------- trimming

  predicate Blank(c: char) {
    c == ' ' || c == '\t' || c == '\r' || c == '\n'
  }

  predicate AllBlank(s: string) {
    forall i :: 0 <= i < |s| ==> Blank(s[i])
  }

  /** find_first_not_of, |s| standing for npos. */
  function FirstInk(s: string): (i: nat)
    ensures i <= |s| && (i < |s| ==> !Blank(s[i]))
    ensures forall k :: 0 <= k < i ==> Blank(s[k])
  {
    if s == "" || !Blank(s[0]) then 0 else 1 + FirstInk(s[1..])
  }

  /** One past find_last_not_of, 0 standing for npos. */
  function InkEnd(s: string): (i: nat)
    ensures i <= |s| && (i > 0 ==> !Blank(s[i - 1]))
    ensures forall k :: i <= k < |s| ==> Blank(s[k])
  {
    if s == "" || !Blank(s[|s| - 1]) then |s| else InkEnd(s[..|s| - 1])
  }

  function Trim(s: string): string {
    var start := FirstInk(s);
    if start == |s| then "" else s[start..InkEnd(s)]
  }

  predicate Trimmed(s: string) {
    s == "" || (!Blank(s[0]) && !Blank(s[|s| - 1]))
  }

  /** Trimming takes exactly the blanks off both ends: the result is the one trimmed
      string that differs from s by blanks at its ends. */
  lemma TrimUnique(s: string, left: string, t: string, right: string)
    requires s == left + t + right && AllBlank(left) && AllBlank(right) && Trimmed(t)
    ensures Trim(s) == t
  {
    assert forall k :: 0 <= k < |left| ==> s[k] == left[k];
    assert forall k :: |left| + |t| <= k < |s| ==> s[k] == right[k - |left| - |t|];
    if t != "" {
      assert s[|left|] == t[0] && s[|left| + |t| - 1] == t[|t| - 1];
      assert FirstInk(s) == |left| && InkEnd(s) == |left| + |t|;
    }
  }

  lemma TrimSplits(s: string) returns (left: string, right: string)
    ensures s == left + Trim(s) + right && AllBlank(left) && AllBlank(right) && Trimmed(Trim(s))
  {
    var i, j := FirstInk(s), InkEnd(s);
    hide FirstInk, InkEnd;
    if i == |s| {
      left, right := s, "";
    } else {
      left, right := s[..i], s[j..];
      ThreeParts(s, i, j);
    }
  }

  lemma ThreeParts(s: string, i: nat, j: nat)
    requires i <= j <= |s|
    ensures s == s[..i] + s[i..j] + s[j..]
  {
  }

  lemma TrimOfTrimmed(s: string)
    requires Trimmed(s)
    ensures Trim(s) == s
  {
    assert s == "" + s + "";
    TrimUnique(s, "", s, "");
  }

  /** Blanks around a text do not show after trimming. */
  lemma TrimPadded(left: string, s: string, right: string)
    requires AllBlank(left) && AllBlank(right)
    ensures Trim(left + s + right) == Trim(s)
  {
    var l, r := TrimSplits(s);
    hide Trim, Trimmed;
    assert left + s + right == (left + l) + Trim(s) + (r + right);
    TrimUnique(left + s + right, left + l, Trim(s), r + right);
  }

  // ------------------------------------------------------------------------- lines

  predicate OneLine(s: string) {
    forall k :: 0 <= k < |s| ==> s[k] != '\n'
  }

  /** Position of the first newline, |s| if there is none. */
  function LineEnd(s: string): (i: nat)
    ensures i <= |s| && (i < |s| ==> s[i] == '\n')
    ensures forall k :: 0 <= k < i ==> s[k] != '\n'
  {
    if s == "" || s[0] == '\n' then 0 else 1 + LineEnd(s[1..])
  }

  /** What successive calls of std::getline return. */
  function Lines(s: string): seq<string>
    decreases |s|
  {
    if s == "" then []
    else
      var i := LineEnd(s);
      [s[..i]] + if i < |s| then Lines(s[i + 1..]) else []
  }

  lemma LinesCons(l: string, rest: string)
    requires OneLine(l)
    ensures Lines(l + "\n" + rest) == [l] + Lines(rest)
  {
    var s := l + "\n" + rest;
    assert forall k :: 0 <= k < |l| ==> s[k] == l[k];
    assert s[|l|] == '\n';
    assert LineEnd(s) == |l|;
    assert s[..|l|] == l && s[|l| + 1..] == rest;
  }

  // ----------------------------------------------------------------------- parsing

  datatype Parser = Parser(doc: Doc, pending: string)

  const FRESH := Parser(EMPTY_DOC, "")

  predicate HasPrefix(s: string, prefix: string) {
    |prefix| <= |s| && s[..|prefix|] == prefix
  }

  predicate IsUrl(t: string) { t != "" && t[0] != '#' }
  predicate IsExtinf(t: string) { HasPrefix(t, EXTINF) }
  predicate IsHeader(t: string) { t != "" && t[0] == '#' && t != EXTM3U && t != ENDLIST && !IsExtinf(t) }

  /** What an EXTINF line says up to its first comma. */
  function Duration(t: string): string
    requires IsExtinf(t)
  {
    var content := t[|EXTINF|..];
    if ',' in content then Trim(content[..IndexOf(content, ',')]) else Trim(content)
  }

  /** The effect of one trimmed, non-empty line. */
  function ParseInk(p: Parser, t: string): Parser
    requires t != ""
  {
    if t[0] != '#' then
      if p.pending != "" then
        Parser(Doc(p.doc.headers, p.doc.pieces + [(p.pending, t)]), "")
      else p
    else if t == EXTM3U || t == ENDLIST then p
    else if IsExtinf(t) then p.(pending := Duration(t))
    else p.(doc := Doc(p.doc.headers + [t], p.doc.pieces))
  }

  function ParseLine(p: Parser, line: string): Parser {
    var t := Trim(line);
    if t == "" then p else ParseInk(p, t)
  }

  function ParseLines(p: Parser, lines: seq<string>): Parser
    decreases |lines|
  {
    if lines == [] then p else ParseLines(ParseLine(p, lines[0]), lines[1..])
  }

  function Parse(content: string): Doc {
    ParseLines(FRESH, Lines(content)).doc
  }

  // ----------------------------------------------------------------------- writing

  function WriteHeaders(headers: seq<string>): string {
    if headers == [] then "" else headers[0] + "\n" + WriteHeaders(headers[1..])
  }

  function WritePieces(pieces: seq<(string, string)>): string {
    if pieces == [] then ""
    else EXTINF + pieces[0].0 + ",\n" + pieces[0].1 + "\n" + WritePieces(pieces[1..])
  }

  function Written(doc: Doc): string {
    EXTM3U + "\n" + WriteHeaders(doc.headers) + WritePieces(doc.pieces) + ENDLIST + "\n"
  }

  /** The class: parsing adds to its two vectors, writing prints them. */
  class M3U8Info {
    var headers: seq<string>
    var pieces: seq<(string, string)>

    constructor ()
      ensures headers == [] && pieces == []
    {
      headers, pieces := [], [];
    }

    method ParseM3U8Content(content: string)
      modifies this
      ensures headers == old(headers) + Parse(content).headers
      ensures pieces == old(pieces) + Parse(content).pieces
    {
      var pendingDuration := "";
      var at := 0;
      ghost var start := Parser(Doc(headers, pieces), "");
      hide Lines, ParseLines, Trim;
      assert content[at..] == content;
      while at < |content|
        invariant at <= |content|
        invariant ParseLines(Parser(Doc(headers, pieces), pendingDuration), Lines(content[at..]))
            == ParseLines(start, Lines(content))
      {
        var end := at;
        while end < |content| && content[end] != '\n'
          invariant at <= end <= |content| && forall k :: at <= k < end ==> content[k] != '\n'
        {
          end := end + 1;
        }
        NextLine(content, at, end);
        ghost var p, from := Parser(Doc(headers, pieces), pendingDuration), at;
        var line := content[at..end];
        at := if end < |content| then end + 1 else end;
        UnfoldParse(p, Lines(content[from..]), line, Lines(content[at..]));
        var trimmed := Trim(line);
        if trimmed != "" {
          if trimmed[0] != '#' {
            if pendingDuration != "" {
              pieces := pieces + [(pendingDuration, trimmed)];
              pendingDuration := "";
            }
          } else if trimmed == EXTM3U || trimmed == ENDLIST {
          } else if HasPrefix(trimmed, EXTINF) {
            var contentPart := trimmed[|EXTINF|..];
            if ',' in contentPart {
              pendingDuration := Trim(contentPart[..IndexOf(contentPart, ',')]);
            } else {
              pendingDuration := Trim(contentPart);
            }
          } else {
            headers := headers + [trimmed];
          }
        }
        assert Parser(Doc(headers, pieces), pendingDuration) == ParseLine(p, line);
      }
      EndOfInput(Parser(Doc(headers, pieces), pendingDuration), content[at..]);
      ghost var before := start.doc;
      ParseOnto(before, FRESH, Lines(content));
      assert start == Parser(Onto(before, EMPTY_DOC), "");
    }

    method Write() returns (context: string)
      ensures context == Written(Doc(headers, pieces))
    {
      context := EXTM3U + "\n";
      for i := 0 to |headers|
        invariant context + WriteHeaders(headers[i..]) == EXTM3U + "\n" + WriteHeaders(headers)
      {
        assert headers[i..][1..] == headers[i + 1..];
        context := context + headers[i] + "\n";
      }
      assert context == EXTM3U + "\n" + WriteHeaders(headers);
      ghost var front := context;
      assert pieces[0..] == pieces;
      for i := 0 to |pieces|
        invariant context + WritePieces(pieces[i..]) == front + WritePieces(pieces)
      {
        assert pieces[i..][1..] == pieces[i + 1..];
        context := context + EXTINF + pieces[i].0 + ",\n" + pieces[i].1 + "\n";
      }
      assert context == front + WritePieces(pieces);
      context := context + ENDLIST + "\n";
    }
  }

  lemma UnfoldParse(p: Parser, all: seq<string>, line: string, rest: seq<string>)
    requires all == [line] + rest
    ensures ParseLines(p, all) == ParseLines(ParseLine(p, line), rest)
  {
  }

  lemma EndOfInput(p: Parser, rest: string)
    requires rest == ""
    ensures ParseLines(p, Lines(rest)) == p
  {
  }

  /** The line that starts at a position, and what is left after it. */
  lemma NextLine(content: string, at: nat, end: nat)
    requires at < |content| && at <= end <= |content| && forall k :: at <= k < end ==> content[k] != '\n'
    requires end < |content| ==> content[end] == '\n'
    ensures var next := if end < |content| then end + 1 else end;
            Lines(content[at..]) == [content[at..end]] + Lines(content[next..])
  {
    var s, l := content[at..], content[at..end];
    if end < |content| {
      assert s == l + "\n" + content[end + 1..];
      LinesCons(l, content[end + 1..]);
    } else {
      assert s == l;
      assert forall k :: 0 <= k < |s| ==> s[k] == l[k];
      assert LineEnd(s) == |s| && s[..|s|] == l && content[end..] == "";
    }
  }

  function Onto(before: Doc, added: Doc): Doc {
    Doc(before.headers + added.headers, before.pieces + added.pieces)
  }

  /** Parsing only ever adds to the document. */
  lemma {:induction false} ParseOnto(before: Doc, p: Parser, lines: seq<string>)
    ensures ParseLines(Parser(Onto(before, p.doc), p.pending), lines)
         == Parser(Onto(before, ParseLines(p, lines).doc), ParseLines(p, lines).pending)
    decreases |lines|
  {
    if lines != [] {
      var next := ParseLine(p, lines[0]);
      ParseLineOnto(before, p, lines[0]);
      ParseOnto(before, next, lines[1..]);
    }
  }

  lemma ParseLineOnto(before: Doc, p: Parser, line: string)
    ensures ParseLine(Parser(Onto(before, p.doc), p.pending), line)
         == Parser(Onto(before, ParseLine(p, line).doc), ParseLine(p, line).pending)
  {
    var t, p' := Trim(line), ParseLine(p, line);
    if t != "" && IsUrl(t) && p.pending != "" {
      assert before.pieces + (p.doc.pieces + [(p.pending, t)]) == before.pieces + p.doc.pieces + [(p.pending, t)];
    } else if t != "" && IsHeader(t) {
      assert before.headers + (p.doc.headers + [t]) == before.headers + p.doc.headers + [t];
    }
  }

  // ------------------------------------------------------------------- normal form

  predicate NormalHeader(h: string) {
    Trimmed(h) && OneLine(h) && IsHeader(h)
  }

  predicate NormalPiece(piece: (string, string)) {
    && Trimmed(piece.0) && piece.0 != "" && OneLine(piece.0) && ',' !in piece.0
    && Trimmed(piece.1) && OneLine(piece.1) && IsUrl(piece.1)
  }

  predicate Normal(doc: Doc) {
    && (forall h :: h in doc.headers ==> NormalHeader(h))
    && (forall piece :: piece in doc.pieces ==> NormalPiece(piece))
  }

  lemma TrimInside(line: string)
    requires OneLine(line)
    ensures Trimmed(Trim(line)) && OneLine(Trim(line))
  {
    var left, right := TrimSplits(line);
    assert forall k :: 0 <= k < |Trim(line)| ==> Trim(line)[k] == line[|left| + k];
  }

  lemma DurationNormal(t: string)
    requires IsExtinf(t) && OneLine(t)
    ensures Trimmed(Duration(t)) && OneLine(Duration(t)) && ',' !in Duration(t)
  {
    var content := t[|EXTINF|..];
    var field := if ',' in content then content[..IndexOf(content, ',')] else content;
    assert forall k :: 0 <= k < |field| ==> field[k] == t[|EXTINF| + k] && field[k] != ',';
    TrimInside(field);
    var left, right := TrimSplits(field);
    assert forall k :: 0 <= k < |Trim(field)| ==> Trim(field)[k] == field[|left| + k];
  }

  ghost predicate NormalParser(p: Parser) {
    && Normal(p.doc)
    && Trimmed(p.pending) && OneLine(p.pending) && ',' !in p.pending
  }

  lemma ParseLineNormal(p: Parser, line: string)
    requires NormalParser(p) && OneLine(line)
    ensures NormalParser(ParseLine(p, line))
  {
    TrimInside(line);
    var t := Trim(line);
    if t != "" && IsExtinf(t) {
      DurationNormal(t);
    }
  }

  /** Whatever the bytes, what is parsed from them is in normal form. */
  lemma {:induction false} ParseIsNormal(p: Parser, content: string)
    requires NormalParser(p)
    ensures NormalParser(ParseLines(p, Lines(content)))
    decreases |content|
  {
    if content != "" {
      var end := LineEnd(content);
      assert content[0..] == content;
      NextLine(content, 0, end);
      var next := if end < |content| then end + 1 else end;
      assert content[0..end] == content[..end];
      ParseLineNormal(p, content[..end]);
      ParseIsNormal(ParseLine(p, content[..end]), content[next..]);
    }
  }

  lemma ParseWrittenLine(p: Parser, line: string, rest: string)
    requires OneLine(line)
    ensures ParseLines(p, Lines(line + "\n" + rest)) == ParseLines(ParseLine(p, line), Lines(rest))
  {
    LinesCons(line, rest);
  }

  lemma {:induction false} ParseHeaders(p: Parser, headers: seq<string>, rest: string)
    requires forall h :: h in headers ==> NormalHeader(h)
    ensures ParseLines(p, Lines(WriteHeaders(headers) + rest))
         == ParseLines(p.(doc := Doc(p.doc.headers + headers, p.doc.pieces)), Lines(rest))
    decreases |headers|
  {
    hide Lines, ParseLines, Trim;
    if headers == [] {
      assert WriteHeaders(headers) + rest == rest && p.doc.headers + headers == p.doc.headers;
    } else {
      var h, tail := headers[0], headers[1..];
      assert h in headers;
      ParseHeader(p, h);
      assert WriteHeaders(headers) + rest == h + "\n" + (WriteHeaders(tail) + rest);
      ParseWrittenLine(p, h, WriteHeaders(tail) + rest);
      ParseHeaders(ParseLine(p, h), tail, rest);
      assert p.doc.headers + [h] + tail == p.doc.headers + headers;
    }
  }

  lemma ParseHeader(p: Parser, h: string)
    requires NormalHeader(h)
    ensures ParseLine(p, h) == p.(doc := Doc(p.doc.headers + [h], p.doc.pieces))
  {
    TrimOfTrimmed(h);
  }

  lemma ParseUrl(p: Parser, url: string)
    requires Trimmed(url) && IsUrl(url) && p.pending != ""
    ensures ParseLine(p, url) == Parser(Doc(p.doc.headers, p.doc.pieces + [(p.pending, url)]), "")
  {
    TrimOfTrimmed(url);
  }

  lemma ParseExtinf(p: Parser, duration: string)
    requires Trimmed(duration) && duration != "" && ',' !in duration
    ensures ParseLine(p, EXTINF + duration + ",") == p.(pending := duration)
  {
    var t := EXTINF + duration + ",";
    TrimOfTrimmed(t);
    TrimOfTrimmed(duration);
    var content := t[|EXTINF|..];
    assert content == duration + "," && t[..|EXTINF|] == EXTINF;
    assert content[|duration|] == ',' && forall k :: 0 <= k < |duration| ==> content[k] == duration[k];
    assert IndexOf(content, ',') == |duration| && content[..|duration|] == duration;
    assert t[0] == '#' && t[3] == 'T' && t[4] == 'I';
  }

  lemma ParsePiece(p: Parser, pieces: seq<(string, string)>, rest: string)
    requires p.pending == "" && pieces != [] && NormalPiece(pieces[0])
    ensures ParseLines(p, Lines(WritePieces(pieces) + rest))
         == ParseLines(p.(doc := Doc(p.doc.headers, p.doc.pieces + [pieces[0]])),
             Lines(WritePieces(pieces[1..]) + rest))
  {
    hide Lines, ParseLines, ParseLine, Trim, WritePieces;
    var (duration, url) := pieces[0];
    var after := WritePieces(pieces[1..]) + rest;
    ParseExtinf(p, duration);
    ParseUrl(p.(pending := duration), url);
    ExtinfText(pieces, rest);
    ExtinfOneLine(duration);
    ParseWrittenLine(p, EXTINF + duration + ",", url + "\n" + after);
    ParseWrittenLine(p.(pending := duration), url, after);
  }

  lemma {:induction false} ParsePieces(p: Parser, pieces: seq<(string, string)>, rest: string)
    requires p.pending == "" && forall piece :: piece in pieces ==> NormalPiece(piece)
    ensures ParseLines(p, Lines(WritePieces(pieces) + rest))
         == ParseLines(p.(doc := Doc(p.doc.headers, p.doc.pieces + pieces)), Lines(rest))
    decreases |pieces|
  {
    hide *;
    if pieces == [] {
      WriteNoPieces(rest);
      assert p.doc.pieces + pieces == p.doc.pieces;
    } else {
      assert pieces[0] in pieces;
      var next := p.(doc := Doc(p.doc.headers, p.doc.pieces + [pieces[0]]));
      ParsePiece(p, pieces, rest);
      ParsePieces(next, pieces[1..], rest);
      assert next.doc.pieces + pieces[1..] == p.doc.pieces + pieces;
    }
  }

  lemma WriteNoPieces(rest: string)
    ensures WritePieces([]) + rest == rest
  {
  }

  lemma ExtinfText(pieces: seq<(string, string)>, rest: string)
    requires pieces != []
    ensures var (duration, url) := pieces[0];
            WritePieces(pieces) + rest
            == (EXTINF + duration + ",") + "\n" + (url + "\n" + (WritePieces(pieces[1..]) + rest))
  {
    Regroup(EXTINF, pieces[0].0, pieces[0].1, WritePieces(pieces[1..]), rest);
  }

  lemma Regroup(tag: string, duration: string, url: string, tail: string, rest: string)
    ensures (tag + duration + ",\n" + url + "\n" + tail) + rest
         == (tag + duration + ",") + "\n" + (url + "\n" + (tail + rest))
  {
    assert ",\n" == "," + "\n";
  }

  lemma ExtinfOneLine(duration: string)
    requires OneLine(duration)
    ensures OneLine(EXTINF + duration + ",")
  {
    assert OneLine(EXTINF);
  }

  lemma ParseWrittenTail(doc: Doc)
    ensures ParseLines(Parser(doc, ""), Lines(ENDLIST + "\n")) == Parser(doc, "")
  {
    TrimOfTrimmed(ENDLIST);
    assert ENDLIST + "\n" == ENDLIST + "\n" + "";
    ParseWrittenLine(Parser(doc, ""), ENDLIST, "");
  }

  lemma ParseWrittenHead(body: string)
    ensures ParseLines(FRESH, Lines(EXTM3U + "\n" + body)) == ParseLines(FRESH, Lines(body))
  {
    TrimOfTrimmed(EXTM3U);
    ParseWrittenLine(FRESH, EXTM3U, body);
  }

  lemma WriteSplit(doc: Doc)
    ensures Written(doc) == EXTM3U + "\n" + (WriteHeaders(doc.headers) + (WritePieces(doc.pieces) + (ENDLIST + "\n")))
  {
  }

  lemma NormalSurvives(doc: Doc)
    requires Normal(doc)
    ensures ParseLines(FRESH, Lines(Written(doc))) == Parser(doc, "")
  {
    hide *;
    var tail := WritePieces(doc.pieces) + (ENDLIST + "\n");
    WriteSplit(doc);
    ParseWrittenHead(WriteHeaders(doc.headers) + tail);
    assert forall h :: h in doc.headers ==> NormalHeader(h) by { NormalParts(doc); }
    ParseHeaders(FRESH, doc.headers, tail);
    assert FRESH.(doc := Doc(FRESH.doc.headers + doc.headers, FRESH.doc.pieces)) == Parser(Doc(doc.headers, []), "")
        by { FreshWith(doc); }
    assert forall piece :: piece in doc.pieces ==> NormalPiece(piece) by { NormalParts(doc); }
    ParsePieces(Parser(Doc(doc.headers, []), ""), doc.pieces, ENDLIST + "\n");
    assert [] + doc.pieces == doc.pieces;
    ParseWrittenTail(doc);
  }

  lemma NormalParts(doc: Doc)
    requires Normal(doc)
    ensures forall h :: h in doc.headers ==> NormalHeader(h)
    ensures forall piece :: piece in doc.pieces ==> NormalPiece(piece)
  {
  }

  lemma FreshWith(doc: Doc)
    ensures FRESH.(doc := Doc(FRESH.doc.headers + doc.headers, FRESH.doc.pieces)) == Parser(Doc(doc.headers, []), "")
  {
    assert [] + doc.headers == doc.headers;
  }

  /** A document survives writing and parsing if and only if it is in normal form. */
  lemma RoundTripIffNormal(doc: Doc)
    ensures Parse(Written(doc)) == doc <==> Normal(doc)
  {
    ParseIsNormal(FRESH, Written(doc));
    if Normal(doc) {
      NormalSurvives(doc);
    }
  }

  /** Normal form: for every byte string, writing what was parsed and parsing it again
      changes nothing. */
  lemma ParseWriteParse(content: string)
    ensures Normal(Parse(content))
    ensures Parse(Written(Parse(content))) == Parse(content)
  {
    ParseIsNormal(FRESH, content);
    RoundTripIffNormal(Parse(content));
  }

  // ------------------------------------------------------- which pieces are parsed

  /** The trimmed lines that are not empty. */
  function Ink(lines: seq<string>): seq<string>
    decreases |lines|
  {
    if lines == [] then []
    else (if Trim(lines[0]) == "" then [] else [Trim(lines[0])]) + Ink(lines[1..])
  }

  function ParseInks(p: Parser, inks: seq<string>): Parser
    requires "" !in inks
    decreases |inks|
  {
    if inks == [] then p else ParseInks(ParseInk(p, inks[0]), inks[1..])
  }

  lemma {:induction false} InkIsEnough(p: Parser, lines: seq<string>)
    ensures "" !in Ink(lines)
    ensures ParseLines(p, lines) == ParseInks(p, Ink(lines))
    decreases |lines|
  {
    if lines != [] {
      InkIsEnough(ParseLine(p, lines[0]), lines[1..]);
      if Trim(lines[0]) == "" {
        assert Ink(lines) == Ink(lines[1..]);
      } else {
        assert Ink(lines)[1..] == Ink(lines[1..]);
      }
    }
  }

  lemma {:induction false} ParseInksSnoc(p: Parser, inks: seq<string>, t: string)
    requires "" !in inks && t != ""
    ensures "" !in inks + [t]
    ensures ParseInks(p, inks + [t]) == ParseInk(ParseInks(p, inks), t)
    decreases |inks|
  {
    if inks == [] {
      assert inks + [t] == [t];
      assert ParseInks(ParseInk(p, t), []) == ParseInk(p, t);
    } else {
      ParseInksSnoc(ParseInk(p, inks[0]), inks[1..], t);
      assert (inks + [t])[1..] == inks[1..] + [t];
    }
  }

  /** Neither a URL nor an EXTINF line from i on, up to j. */
  ghost predicate Quiet(ls: seq<string>, i: nat, j: nat)
    requires j <= |ls|
  {
    forall k :: i <= k < j ==> !IsUrl(ls[k]) && !IsExtinf(ls[k])
  }

  /** Line j is a URL, and line i the last EXTINF line since the URL before it, with
      a duration that is not empty. */
  ghost predicate Announces(ls: seq<string>, i: nat, j: nat) {
    i < j < |ls| && IsExtinf(ls[i]) && Duration(ls[i]) != "" && IsUrl(ls[j]) && Quiet(ls, i + 1, j)
  }

  /** Pairs of line numbers, one for each piece of the document. */
  ghost predicate PairsOf(ls: seq<string>, n: nat, pairs: seq<(nat, nat)>, pieces: seq<(string, string)>)
    requires n <= |ls|
  {
    && |pairs| == |pieces|
    && (forall m :: 0 <= m < |pairs| ==>
          && Announces(ls, pairs[m].0, pairs[m].1) && pairs[m].1 < n
          && pieces[m] == (Duration(ls[pairs[m].0]), ls[pairs[m].1]))
    && (forall m, m' :: 0 <= m < m' < |pairs| ==> pairs[m].1 < pairs[m'].1)
    && (forall i: nat, j: nat :: Announces(ls, i, j) && j < n ==> (i, j) in pairs)
  }

  /** What the parser knows after n lines: the pairs so far, and the EXTINF line that
      is pending, if one is. */
  ghost predicate PairingInv(ls: seq<string>, n: nat, pairs: seq<(nat, nat)>, last: int, p: Parser)
    requires n <= |ls|
  {
    && PairsOf(ls, n, pairs, p.doc.pieces)
    && -1 <= last < n
    && (last >= 0 ==> IsExtinf(ls[last]) && Duration(ls[last]) == p.pending && Quiet(ls, last + 1, n))
    && (last < 0 ==> p.pending == "")
    && (forall i: nat :: i < n && IsExtinf(ls[i]) && Quiet(ls, i + 1, n) ==> i == last)
  }

  lemma PairsSkip(ls: seq<string>, n: nat, pairs: seq<(nat, nat)>, pieces: seq<(string, string)>)
    requires n < |ls| && !IsUrl(ls[n]) && PairsOf(ls, n, pairs, pieces)
    ensures PairsOf(ls, n + 1, pairs, pieces)
  {
    hide Quiet;
  }

  lemma PairsAdd(ls: seq<string>, n: nat, i: nat, pairs: seq<(nat, nat)>, pieces: seq<(string, string)>)
    requires n < |ls| && Announces(ls, i, n) && PairsOf(ls, n, pairs, pieces)
    requires forall i': nat :: Announces(ls, i', n) ==> i' == i
    ensures PairsOf(ls, n + 1, pairs + [(i, n)], pieces + [(Duration(ls[i]), ls[n])])
  {
    hide Quiet, Duration;
    var pairs' := pairs + [(i, n)];
    assert pairs'[|pairs|] == (i, n);
    forall i': nat, j: nat | Announces(ls, i', j) && j < n + 1 ensures (i', j) in pairs' {
      if j < n {
        assert (i', j) in pairs;
      }
    }
  }

  lemma PairsNone(ls: seq<string>, n: nat, pairs: seq<(nat, nat)>, pieces: seq<(string, string)>)
    requires n < |ls| && PairsOf(ls, n, pairs, pieces)
    requires forall i: nat :: !Announces(ls, i, n)
    ensures PairsOf(ls, n + 1, pairs, pieces)
  {
    hide Quiet;
  }

  lemma QuietEmpty(ls: seq<string>, n: nat)
    requires n <= |ls|
    ensures Quiet(ls, n, n)
  {
  }

  lemma QuietGrows(ls: seq<string>, i: nat, n: nat)
    requires n < |ls|
    ensures Quiet(ls, i, n + 1) <==> Quiet(ls, i, n) && (i <= n ==> !IsUrl(ls[n]) && !IsExtinf(ls[n]))
  {
  }

  lemma PairingUrl(ls: seq<string>, n: nat, pairs: seq<(nat, nat)>, last: int, p: Parser)
      returns (pairs': seq<(nat, nat)>)
    requires n < |ls| && IsUrl(ls[n]) && PairingInv(ls, n, pairs, last, p)
    ensures PairingInv(ls, n + 1, pairs', -1, ParseInk(p, ls[n]))
  {
    hide PairsOf, Quiet;
    assert !IsExtinf(ls[n]) by { assert EXTINF[0] == '#'; }
    forall i: nat | i < n && IsExtinf(ls[i]) ensures !Quiet(ls, i + 1, n + 1) {
      QuietGrows(ls, i + 1, n);
    }
    if p.pending != "" {
      pairs' := pairs + [(last, n)];
      PairsAdd(ls, n, last, pairs, p.doc.pieces);
    } else {
      pairs' := pairs;
      PairsNone(ls, n, pairs, p.doc.pieces);
    }
  }

  lemma PairingExtinf(ls: seq<string>, n: nat, pairs: seq<(nat, nat)>, last: int, p: Parser)
    requires n < |ls| && IsExtinf(ls[n]) && PairingInv(ls, n, pairs, last, p)
    ensures PairingInv(ls, n + 1, pairs, n, ParseInk(p, ls[n]))
  {
    assert ENDLIST[4] == '-' && EXTM3U[4] == 'M' && EXTINF[4] == 'I' && ls[n][4] == 'I' && ls[n][0] == '#';
    hide PairsOf, Quiet;
    PairsSkip(ls, n, pairs, p.doc.pieces);
    QuietEmpty(ls, n + 1);
    forall i: nat | i < n + 1 && IsExtinf(ls[i]) && Quiet(ls, i + 1, n + 1) ensures i == n {
      QuietGrows(ls, i + 1, n);
    }
  }

  lemma PairingOther(ls: seq<string>, n: nat, pairs: seq<(nat, nat)>, last: int, p: Parser)
    requires n < |ls| && ls[n] != "" && !IsUrl(ls[n]) && !IsExtinf(ls[n]) && PairingInv(ls, n, pairs, last, p)
    ensures PairingInv(ls, n + 1, pairs, last, ParseInk(p, ls[n]))
  {
    forall i: nat ensures Quiet(ls, i, n + 1) <==> Quiet(ls, i, n) {
      QuietGrows(ls, i, n);
    }
    hide PairsOf, Quiet;
    PairsSkip(ls, n, pairs, p.doc.pieces);
  }

  /** Pairing: the parsed pieces are, in order and with nothing missing, the URL lines
      whose last EXTINF line since the URL line before has a non-empty duration. */
  lemma PairingSpec(content: string) returns (pairs: seq<(nat, nat)>)
    ensures PairsOf(Ink(Lines(content)), |Ink(Lines(content))|, pairs, Parse(content).pieces)
  {
    hide PairingInv, PairsOf, ParseInks, ParseInk, Ink, Lines, Trim, Duration, Quiet;
    var ls := Ink(Lines(content));
    InkIsEnough(FRESH, Lines(content));
    pairs := [];
    var p, last := FRESH, -1;
    PairingStart(ls);
    for n := 0 to |ls|
      invariant p == ParseInks(FRESH, ls[..n])
      invariant PairingInv(ls, n, pairs, last, p)
    {
      assert ls[..n + 1] == ls[..n] + [ls[n]];
      ParseInksSnoc(FRESH, ls[..n], ls[n]);
      if IsUrl(ls[n]) {
        pairs := PairingUrl(ls, n, pairs, last, p);
        last := -1;
      } else if IsExtinf(ls[n]) {
        PairingExtinf(ls, n, pairs, last, p);
        last := n;
      } else {
        PairingOther(ls, n, pairs, last, p);
      }
      p := ParseInk(p, ls[n]);
    }
    assert ls[..|ls|] == ls;
    PairingEnd(ls, pairs, last, p);
  }

  lemma PairingStart(ls: seq<string>)
    ensures PairingInv(ls, 0, [], -1, FRESH)
    ensures ParseInks(FRESH, ls[..0]) == FRESH
  {
  }

  lemma PairingEnd(ls: seq<string>, pairs: seq<(nat, nat)>, last: int, p: Parser)
    requires PairingInv(ls, |ls|, pairs, last, p)
    ensures PairsOf(ls, |ls|, pairs, p.doc.pieces)
  {
  }

  /** The headers are the other '#' lines, in order. */
  function HeaderLines(ls: seq<string>): seq<string> {
    if ls == [] then [] else (if IsHeader(ls[0]) then [ls[0]] else []) + HeaderLines(ls[1..])
  }

  lemma {:induction false} HeaderSpec(p: Parser, ls: seq<string>)
    requires "" !in ls
    ensures ParseInks(p, ls).doc.headers == p.doc.headers + HeaderLines(ls)
    decreases |ls|
  {
    if ls != [] {
      HeaderSpec(ParseInk(p, ls[0]), ls[1..]);
    }
  }

  // ------------------------------------------------------------- layout is invisible

  /** Lines, each set between blanks and ended by a newline. */
  function Layout(left: seq<string>, lines: seq<string>, right: seq<string>): string
    requires |left| == |lines| == |right|
    decreases |lines|
  {
    if lines == [] then ""
    else left[0] + lines[0] + right[0] + "\n" + Layout(left[1..], lines[1..], right[1..])
  }

  lemma BlankLine(blanks: string, rest: string)
    requires AllBlank(blanks) && OneLine(blanks)
    ensures Ink(Lines(blanks + "\n" + rest)) == Ink(Lines(rest))
  {
    assert blanks == "" + "" + blanks;
    TrimUnique(blanks, "", "", blanks);
    InkLine(blanks, rest);
  }

  lemma InkLine(line: string, rest: string)
    requires OneLine(line)
    ensures Ink(Lines(line + "\n" + rest)) == Ink([line]) + Ink(Lines(rest))
  {
    LinesCons(line, rest);
    assert ([line] + Lines(rest))[1..] == Lines(rest);
  }

  lemma InkOne(line: string, other: string)
    requires Trim(line) == Trim(other)
    ensures Ink([line]) == Ink([other])
  {
  }

  /** Blanks in front of a text, newlines among them, add no ink. */
  lemma {:induction false} LeadingBlanks(blanks: string, text: string)
    requires AllBlank(blanks)
    ensures Ink(Lines(blanks + "\n" + text)) == Ink(Lines(text))
    decreases |blanks|
  {
    hide Ink, Lines;
    var end := LineEnd(blanks);
    if end == |blanks| {
      BlankLine(blanks, text);
    } else {
      var tail := blanks[end + 1..] + "\n" + text;
      assert blanks == blanks[..end] + "\n" + blanks[end + 1..];
      assert blanks + "\n" + text == blanks[..end] + "\n" + tail;
      BlankLine(blanks[..end], tail);
      LeadingBlanks(blanks[end + 1..], text);
    }
  }

  lemma InkPadded(line: string, right: string, rest: string)
    requires AllBlank(right) && OneLine(line) && OneLine(right)
    ensures Ink(Lines(line + right + "\n" + rest)) == Ink([line]) + Ink(Lines(rest))
  {
    hide Ink, Lines, Trim;
    assert AllBlank("");
    assert line + right == "" + line + right;
    TrimPadded("", line, right);
    InkOne(line + right, line);
    InkLine(line + right, rest);
  }

  /** A line followed by blanks, newlines among them. */
  lemma TrailingBlanks(line: string, right: string, rest: string)
    requires AllBlank(right) && OneLine(line)
    ensures Ink(Lines(line + right + "\n" + rest)) == Ink([line]) + Ink(Lines(rest))
  {
    hide Lines, Ink;
    var r := LineEnd(right);
    if r < |right| {
      var tail := right[r + 1..] + "\n" + rest;
      assert right == right[..r] + "\n" + right[r + 1..];
      assert line + right + "\n" + rest == line + right[..r] + "\n" + tail;
      InkPadded(line, right[..r], tail);
      LeadingBlanks(right[r + 1..], rest);
    } else {
      InkPadded(line, right, rest);
    }
  }

  /** A line between blanks shows as its own ink, wherever newlines stand among the blanks. */
  lemma {:induction false} PaddedLine(left: string, line: string, right: string, rest: string)
    requires AllBlank(left) && AllBlank(right) && OneLine(line)
    ensures Ink(Lines(left + line + right + "\n" + rest)) == Ink([line]) + Ink(Lines(rest))
    decreases |left|
  {
    hide Lines, Ink, Trim;
    var l := LineEnd(left);
    if l < |left| {
      var tail := left[l + 1..] + line + right + "\n" + rest;
      assert left + line + right + "\n" + rest == left[..l] + "\n" + tail;
      BlankLine(left[..l], tail);
      PaddedLine(left[l + 1..], line, right, rest);
    } else {
      TrailingBlanks(left + line, right, rest);
      assert left + line == left + line + "";
      TrimPadded(left, line, "");
      InkOne(left + line, line);
    }
  }

  lemma InkNothing()
    ensures Ink(Lines("")) == Ink([])
  {
  }

  lemma InkCons(lines: seq<string>)
    requires lines != []
    ensures Ink(lines) == Ink([lines[0]]) + Ink(lines[1..])
  {
  }

  lemma {:induction false} LayoutInk(left: seq<string>, lines: seq<string>, right: seq<string>)
    requires |left| == |lines| == |right|
    requires forall l :: l in lines ==> OneLine(l)
    requires forall b :: b in left || b in right ==> AllBlank(b)
    ensures Ink(Lines(Layout(left, lines, right))) == Ink(lines)
    decreases |lines|
  {
    hide Ink, Lines, AllBlank, OneLine;
    if lines == [] {
      InkNothing();
    } else {
      assert lines[0] in lines && left[0] in left && right[0] in right;
      InkCons(lines);
      PaddedLine(left[0], lines[0], right[0], Layout(left[1..], lines[1..], right[1..]));
      LayoutInk(left[1..], lines[1..], right[1..]);
    }
  }

  lemma {:induction false} LinesHaveNoNewline(content: string)
    ensures forall l :: l in Lines(content) ==> OneLine(l)
    decreases |content|
  {
    if content != "" {
      var end := LineEnd(content);
      assert OneLine(content[..end]);
      hide OneLine;
      if end < |content| {
        LinesHaveNoNewline(content[end + 1..]);
        assert Lines(content) == [content[..end]] + Lines(content[end + 1..]);
      } else {
        assert Lines(content) == [content[..end]];
      }
    }
  }

  lemma OnlyWhite(b: string)
    requires forall c :: c in b ==> c in " \t\r\n"
    ensures AllBlank(b)
  {
    assert forall k :: 0 <= k < |b| ==> b[k] in b;
  }

  /** A text that has none of these at its ends is left as it is. */
  lemma TrimKeeps(s: string)
    requires s != "" && s[0] !in " \t\r\n" && s[|s| - 1] !in " \t\r\n"
    ensures Trim(s) == s
  {
    hide Trim;
    assert " \t\r\n"[0] == ' ' && " \t\r\n"[1] == '\t' && " \t\r\n"[2] == '\r' && " \t\r\n"[3] == '\n';
    TrimOfTrimmed(s);
  }

  /** Layout is invisible: setting every line of a content between any blanks - carriage
      returns, indentation, whole blank lines - leaves the parsed document as it was. */
  lemma LayoutInvisible(content: string, left: seq<string>, right: seq<string>)
    requires |left| == |Lines(content)| == |right|
    requires forall b :: b in left || b in right ==> forall c :: c in b ==> c in " \t\r\n"
    ensures Parse(Layout(left, Lines(content), right)) == Parse(content)
  {
    forall b | b in left || b in right ensures AllBlank(b) {
      OnlyWhite(b);
    }
    LinesHaveNoNewline(content);
    LayoutInk(left, Lines(content), right);
    InkIsEnough(FRESH, Lines(content));
    InkIsEnough(FRESH, Lines(Layout(left, Lines(content), right)));
  }

  // ------------------------------------------- lines, durations and text, independently

  /** Lines, each with its newline. */
  function Joined(lines: seq<string>): string {
    if lines == [] then "" else lines[0] + "\n" + Joined(lines[1..])
  }

  /** The text with a newline at its end, if it is not empty. */
  function Closed(content: string): string {
    if content == "" || content[|content| - 1] == '\n' then content else content + "\n"
  }

  lemma ClosedCut(line: string, rest: string)
    ensures Closed(line + "\n" + rest) == line + "\n" + Closed(rest)
  {
    var content := line + "\n" + rest;
    if rest == "" {
      assert content[|content| - 1] == '\n';
    } else {
      assert content[|content| - 1] == rest[|rest| - 1];
      assert content + "\n" == line + "\n" + (rest + "\n");
    }
  }

  lemma LinesCut(content: string)
    requires content != ""
    ensures var i := LineEnd(content);
            && (i == |content| ==> Lines(content) == [content] && Closed(content) == content + "\n")
            && (i < |content| ==>
                  && Lines(content) == [content[..i]] + Lines(content[i + 1..])
                  && Closed(content) == content[..i] + "\n" + Closed(content[i + 1..]))
  {
    hide Lines;
    var i := LineEnd(content);
    LinesUnfold(content);
    if i < |content| {
      Cut(content, i);
      ClosedCut(content[..i], content[i + 1..]);
    } else {
      assert content[..i] == content;
    }
  }

  lemma Cut(content: string, i: nat)
    requires i < |content| && content[i] == '\n'
    ensures content == content[..i] + "\n" + content[i + 1..]
  {
  }

  lemma LinesUnfold(content: string)
    requires content != ""
    ensures var i := LineEnd(content);
            Lines(content) == [content[..i]] + if i < |content| then Lines(content[i + 1..]) else []
  {
  }

  /** The lines of a text are newline-free, and make it up when each is given its newline -
      a newline that the end of the text may lack. */
  lemma {:induction false} LinesJoin(content: string)
    ensures forall l :: l in Lines(content) ==> OneLine(l)
    ensures Joined(Lines(content)) == Closed(content)
    decreases |content|
  {
    hide OneLine, Lines, Closed;
    LinesHaveNoNewline(content);
    if content == "" {
      NoLines();
    } else {
      var i := LineEnd(content);
      LinesCut(content);
      if i < |content| {
        LinesJoin(content[i + 1..]);
        assert Lines(content)[1..] == Lines(content[i + 1..]);
      } else {
        assert Lines(content)[1..] == [];
      }
    }
  }

  /** EXTINF lines are the texts that begin with the tag. */
  lemma ExtinfIff(t: string)
    ensures IsExtinf(t) <==> exists rest: string :: t == "#EXTINF:" + rest
  {
    if IsExtinf(t) {
      assert t == "#EXTINF:" + t[8..];
    }
    forall rest: string | t == "#EXTINF:" + rest ensures IsExtinf(t) {
      assert t[..8] == "#EXTINF:";
    }
  }

  lemma BlanksNoComma(blanks: string)
    requires AllBlank(blanks)
    ensures ',' !in blanks
  {
  }

  lemma CommaAt(head: string, title: string)
    requires ',' !in head
    ensures var s := head + "," + title;
            ',' in s && IndexOf(s, ',') == |head| && s[..|head|] == head
  {
    var s := head + "," + title;
    assert s[|head|] == ',';
    assert forall k :: 0 <= k < |head| ==> s[k] == head[k] && head[k] in head;
  }

  /** What stands after the tag: a duration between blanks, and after a comma a title. */
  predicate DurationLine(line: string, left: string, d: string, right: string, tail: string) {
    && AllBlank(left) && AllBlank(right) && Trimmed(d) && ',' !in d
    && (tail == "" || tail[0] == ',')
    && line == "#EXTINF:" + left + d + right + tail
  }

  lemma DurationMeans(line: string, left: string, d: string, right: string, tail: string)
    requires DurationLine(line, left, d, right, tail)
    ensures IsExtinf(line) && Duration(line) == d
  {
    hide Trim, Trimmed;
    var head := left + d + right;
    BlanksNoComma(left);
    BlanksNoComma(right);
    TrimUnique(head, left, d, right);
    assert line == "#EXTINF:" + (head + tail);
    assert line[..8] == EXTINF && line[8..] == head + tail;
    if tail == "" {
      assert head + tail == head;
    } else {
      CommaAt(head, tail[1..]);
      assert head + tail == head + "," + tail[1..];
    }
  }

  lemma HeadAndTail(content: string) returns (head: string, tail: string)
    ensures content == head + tail && ',' !in head && (tail == "" || tail[0] == ',')
  {
    if ',' in content {
      var i := IndexOf(content, ',');
      head, tail := content[..i], content[i..];
    } else {
      head, tail := content, "";
    }
  }

  lemma NoCommaInside(left: string, d: string, right: string)
    requires ',' !in left + d + right
    ensures ',' !in d
  {
    assert forall k :: 0 <= k < |d| ==> d[k] == (left + d + right)[|left| + k];
  }

  /** Every EXTINF line is of this form. */
  lemma DurationSplits(line: string) returns (left: string, d: string, right: string, tail: string)
    requires IsExtinf(line)
    ensures DurationLine(line, left, d, right, tail)
  {
    hide Trim, Trimmed, AllBlank, FirstInk, InkEnd, IndexOf;
    var head;
    head, tail := HeadAndTail(line[8..]);
    left, right := TrimSplits(head);
    d := Trim(head);
    NoCommaInside(left, d, right);
    assert line == "#EXTINF:" + line[8..];
    assert line == "#EXTINF:" + left + d + right + tail;
  }

  lemma TrimHead(line: string, n: nat)
    requires n < |line| && !Blank(line[0]) && !Blank(line[n])
    ensures exists e: nat :: n < e <= |line| && Trim(line) == line[..e] && AllBlank(line[e..])
  {
    var e := InkEnd(line);
    assert FirstInk(line) == 0;
    assert Trim(line) == line[..e] && AllBlank(line[e..]);
  }

  /** A line of the playlist with such a duration, blanks at its end or not, announces it. */
  lemma ExtinfAnnounces(p: Parser, line: string, left: string, d: string, right: string, tail: string)
    requires DurationLine(line, left, d, right, tail)
    ensures ParseLine(p, line) == p.(pending := d)
  {
    hide Trim, Duration, InkEnd, FirstInk, Lines;
    var head := left + d + right;
    if tail == "" {
      LineParts(line, left, d, right);
      TrimUnique(line, "", TrimmedLine(left, d), if d == "" then left + right else right);
      TrimmedShape(left, d);
      DurationMeans(TrimmedLine(left, d), if d == "" then "" else left, d, "", "");
      ParseExtinfLine(p, TrimmedLine(left, d));
    } else {
      var n := 8 + |head|;
      assert line[n] == ',' by { assert line == ("#EXTINF:" + head) + tail; }
      TrimHead(line, n);
      var e: nat :| n < e <= |line| && Trim(line) == line[..e] && AllBlank(line[e..]);
      var short := tail[..e - n];
      assert line[..e] == "#EXTINF:" + left + d + right + short;
      DurationMeans(line[..e], left, d, right, short);
      ParseExtinfLine(p, line[..e]);
    }
  }

  /** What is left of an EXTINF line without a title when its blanks are gone. */
  function TrimmedLine(left: string, d: string): string {
    "#EXTINF:" + if d == "" then "" else left + d
  }

  lemma LineParts(line: string, left: string, d: string, right: string)
    requires DurationLine(line, left, d, right, "")
    ensures var rest := if d == "" then left + right else right;
            line == "" + TrimmedLine(left, d) + rest && AllBlank(rest) && AllBlank("") && Trimmed(TrimmedLine(left, d))
  {
    var rest := if d == "" then left + right else right;
    assert line == "" + TrimmedLine(left, d) + rest;
    var t := TrimmedLine(left, d);
    assert t[0] == '#';
    if d != "" {
      assert t[|t| - 1] == d[|d| - 1];
    }
  }

  lemma TrimmedShape(left: string, d: string)
    requires AllBlank(left) && Trimmed(d) && ',' !in d
    ensures DurationLine(TrimmedLine(left, d), if d == "" then "" else left, d, "", "")
  {
    var left' := if d == "" then "" else left;
    assert TrimmedLine(left, d) == "#EXTINF:" + left' + d + "" + "";
  }

  lemma ParseExtinfLine(p: Parser, t: string)
    requires IsExtinf(t)
    ensures t != "" && ParseInk(p, t) == p.(pending := Duration(t))
  {
    assert t[0] == '#' && t[4] == 'I' by { assert t[..8] == EXTINF; }
    assert EXTM3U[4] == 'M' && ENDLIST[4] == '-';
  }

  /** A duration line and a URL line make one piece, with the comma and title or without. */
  lemma PieceParsed(line: string, left: string, d: string, right: string, tail: string, url: string)
    requires DurationLine(line, left, d, right, tail) && OneLine(line) && d != ""
    requires Trimmed(url) && OneLine(url) && IsUrl(url)
    ensures Parse(line + "\n" + url + "\n") == Doc([], [(d, url)])
  {
    hide Trim, Duration, Lines, ParseInk;
    ExtinfAnnounces(FRESH, line, left, d, right, tail);
    assert line + "\n" + url + "\n" == line + "\n" + (url + "\n" + "");
    LinesCons(line, url + "\n" + "");
    LinesCons(url, "");
    NoLines();
    TrimOfTrimmed(url);
    UrlTakes(FRESH.(pending := d), url);
    TwoLines(FRESH, line, url);
    assert [line] + ([url] + []) == [line, url];
  }

  lemma TwoLines(p: Parser, line: string, url: string)
    ensures ParseLines(p, [line, url]) == ParseLine(ParseLine(p, line), url)
  {
    hide ParseLine;
    assert [line, url][1..] == [url] && [url][1..] == [];
    assert ParseLines(ParseLine(p, line), [url]) == ParseLines(ParseLine(ParseLine(p, line), url), []);
    assert ParseLines(ParseLine(ParseLine(p, line), url), []) == ParseLine(ParseLine(p, line), url);
  }

  lemma NoLines()
    ensures Lines("") == [] && Closed("") == ""
  {
  }

  lemma UrlTakes(p: Parser, url: string)
    requires IsUrl(url) && p.pending != ""
    ensures ParseInk(p, url) == Parser(Doc(p.doc.headers, p.doc.pieces + [(p.pending, url)]), "")
  {
  }

  /** The text that is written, tag by tag. */
  lemma WrittenText(header: string, d: string, url: string)
    ensures Written(EMPTY_DOC) == "#EXTM3U\n#EXT-X-ENDLIST\n"
    ensures Written(Doc([header], [(d, url)]))
         == "#EXTM3U\n" + header + "\n" + "#EXTINF:" + d + ",\n" + url + "\n" + "#EXT-X-ENDLIST\n"
  {
    assert WriteHeaders([header]) == header + "\n";
    assert WritePieces([(d, url)]) == "#EXTINF:" + d + ",\n" + url + "\n";
    assert WriteHeaders([]) == "" && WritePieces([]) == "";
  }

  /** Line ends of either kind: with carriage returns before its newlines, a content is read
      as the same document. */
  lemma CarriageReturnsInvisible(content: string)
    ensures var n := |Lines(content)|;
            Parse(Layout(seq(n, _ => ""), Lines(content), seq(n, _ => "\r"))) == Parse(content)
  {
    hide Lines, Parse;
    var n := |Lines(content)|;
    var left, right := seq(n, _ => ""), seq(n, _ => "\r");
    forall b | b in left || b in right ensures forall c :: c in b ==> c in " \t\r\n" {
      assert b == "" || b == "\r";
      assert " \t\r\n"[2] == '\r';
    }
    LayoutInvisible(content, left, right);
  }
}
