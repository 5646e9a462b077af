/**
 The incremental request parser of include/http/http_parser.hpp.

 `Step` is one turn of the parser's switch, `Run` the whole loop, and `Feed` one call of
 `parse`; the class `HttpParser` is the loop itself, over mutable fields, proved equal to
 `Feed`.  A character stands for one byte of the C++ string.
 */
module TextSearch {

  predicate At(s: string, pat: string, i: int) {
    0 <= i && i + |pat| <= |s| && s[i..i + |pat|] == pat
  }

  /** The first position, from `i` on, where `pat` occurs in `s`; -1 stands for npos. */
  function FindFrom(s: string, pat: string, i: nat): (pos: int)
    ensures pos == -1 || (i <= pos && At(s, pat, pos))
    ensures forall j :: i <= j && At(s, pat, j) ==> i <= pos <= j
    decreases |s| - i
  {
    if i + |pat| > |s| then -1
    else if At(s, pat, i) then i
    else if i == |s| then -1
    else FindFrom(s, pat, i + 1)
  }

  function Find(s: string, pat: string): (pos: int)
    ensures pos == -1 || At(s, pat, pos)
    ensures forall j :: At(s, pat, j) ==> 0 <= pos <= j
  {
    FindFrom(s, pat, 0)
  }

  /** An occurrence inside a part of a text is an occurrence in that part. */
  lemma AtPart(front: string, part: string, back: string, pat: string, i: int)
    requires At(front + part + back, pat, i)
    requires |front| <= i && i + |pat| <= |front| + |part|
    ensures At(part, pat, i - |front|)
  {
    var t := front + part + back;
    assert part[i - |front|..i - |front| + |pat|] == t[i..i + |pat|];
  }

  /** What follows a found pattern cannot change where it is found first. */
  lemma FindExtend(s: string, x: string, pat: string)
    ensures Find(s, pat) >= 0 ==> Find(s + x, pat) == Find(s, pat)
  {
    var pos, pos' := Find(s, pat), Find(s + x, pat);
    if pos >= 0 {
      assert (s + x)[pos..pos + |pat|] == s[pos..pos + |pat|];
      assert At(s + x, pat, pos);
      assert "" + s + x == s + x;
      AtPart("", s, x, pat, pos');
    }
  }

  /** An occurrence that ends inside the front of a text is found in the front. */
  lemma FoundInFront(s: string, x: string, pat: string)
    ensures 0 <= Find(s + x, pat) && Find(s + x, pat) + |pat| <= |s| ==> Find(s, pat) >= 0
  {
    var pos := Find(s + x, pat);
    if 0 <= pos && pos + |pat| <= |s| {
      assert "" + s + x == s + x;
      AtPart("", s, x, pat, pos);
    }
  }

  /** A text that contains a pattern contains its first character. */
  lemma FirstCharacter(s: string, pat: string)
    requires pat != ""
    ensures Find(s, pat) >= 0 ==> pat[0] in s
  {
    var pos := Find(s, pat);
    if pos >= 0 {
      assert s[pos] == s[pos..pos + |pat|][0];
    }
  }

  /** A text without the separator, followed by the separator, is delimited by it. */
  lemma FindDelimited(s: string, sep: char, rest: string)
    requires Find(s, [sep]) < 0
    ensures Find(s + [sep] + rest, [sep]) == |s|
  {
    var t := s + [sep] + rest;
    assert t == s + ([sep] + rest);
    assert t[|s|..|s| + 1] == [sep];
    assert At(t, [sep], |s|);
    FoundInFront(s, [sep] + rest, [sep]);
  }

  /** The same for a line end: the line may even end in '\r'. */
  lemma FindLineEnd(s: string, rest: string)
    requires Find(s, "\r\n") < 0
    ensures Find(s + "\r\n" + rest, "\r\n") == |s|
  {
    var t := s + "\r\n" + rest;
    assert t == s + ("\r\n" + rest);
    assert t[|s|..|s| + 2] == "\r\n";
    assert At(t, "\r\n", |s|);
    FoundInFront(s, "\r\n" + rest, "\r\n");
    var pos := Find(t, "\r\n");
    assert t[pos..pos + 2][1] == t[pos + 1];
    assert t[|s|] == '\r';
  }

  /** The text in front of the first occurrence does not contain the pattern. */
  lemma FindPrefix(s: string, pat: string)
    requires |pat| > 0 && Find(s, pat) >= 0
    ensures Find(s[..Find(s, pat)], pat) < 0
    ensures s == s[..Find(s, pat)] + pat + s[Find(s, pat) + |pat|..]
  {
    var pos := Find(s, pat);
    assert s == s[..pos] + s[pos..];
    FindExtend(s[..pos], s[pos..], pat);
  }
}

module HttpParsing {
  import opened Options
  import opened TextSearch
  import opened Decimals

  const CRLF := "\r\n"
  const CONTENT_LENGTH := "Content-Length"

  datatype Phase = Method | Path | Version | Header | Body | Done

  datatype Request = Request(verb: string, path: string, version: string,
                             headers: map<string, string>, body: string)

  const EMPTY_REQUEST := Request("", "", "", map[], "")

  /** The parser's two fields and the request object it is filling. */
  datatype Parser = Parser(phase: Phase, buffer: string, req: Request)

  /** What a call of `parse` ends in: false, true, or an exception thrown by stoi. */
  datatype Verdict = Incomplete | Complete | BadLength

  function Rank(phase: Phase): nat {
    match phase
    case Method => 5
    case Path => 4
    case Version => 3
    case Header => 2
    case Body => 1
    case Done => 0
  }

  function DropOneSpace(value: string): string {
    if value != "" && value[0] == ' ' then value[1..] else value
  }

  /** The effect of one header line: a line without a colon is ignored. */
  function AddLine(headers: map<string, string>, line: string): map<string, string> {
    var colon := Find(line, ":");
    if colon < 0 then headers else headers[line[..colon] := DropOneSpace(line[colon + 1..])]
  }

  /** One turn of the switch; None when the turn leaves `parse`. */
  function Step(p: Parser): (r: Option<Parser>)
    ensures r.Some? ==> Rank(r.value.phase) < Rank(p.phase)
                        || (r.value.phase == p.phase && |r.value.buffer| < |p.buffer|)
    ensures r.Some? ==> |r.value.buffer| <= |p.buffer|
  {
    var b := p.buffer;
    match p.phase
    case Method =>
      var pos := Find(b, " ");
      if pos < 0 then None else Some(Parser(Path, b[pos + 1..], p.req.(verb := b[..pos])))
    case Path =>
      var pos := Find(b, " ");
      if pos < 0 then None else Some(Parser(Version, b[pos + 1..], p.req.(path := b[..pos])))
    case Version =>
      var pos := Find(b, CRLF);
      if pos < 0 then None else Some(Parser(Header, b[pos + 2..], p.req.(version := b[..pos])))
    case Header =>
      if CRLF <= b then
        Some(p.(phase := if p.req.verb == "POST" then Body else Done, buffer := b[2..]))
      else
        var pos := Find(b, CRLF);
        if pos < 0 then None
        else Some(p.(buffer := b[pos + 2..], req := p.req.(headers := AddLine(p.req.headers, b[..pos]))))
    case Body =>
      if CONTENT_LENGTH !in p.req.headers then Some(p.(phase := Done))
      else
        var length := Stoi(p.req.headers[CONTENT_LENGTH]);
        if length == None || |b| < SizeOf(length.value) then None
        else
          var n := SizeOf(length.value);
          Some(Parser(Done, b[n..], p.req.(body := b[..n])))
    case Done => None
  }

  function Run(p: Parser): Parser
    decreases Rank(p.phase), |p.buffer|
  {
    var next := Step(p);
    if next.None? then p else Run(next.value)
  }

  /** How the loop ends in a state from which it takes no further turn. */
  function VerdictOf(p: Parser): Verdict {
    if p.phase == Done then Complete
    else if p.phase == Body && CONTENT_LENGTH in p.req.headers
            && Stoi(p.req.headers[CONTENT_LENGTH]) == None then BadLength
    else Incomplete
  }

  function Append(p: Parser, data: string): Parser {
    p.(buffer := p.buffer + data)
  }

  /** One call of `parse`. */
  function Feed(p: Parser, data: string): (Parser, Verdict) {
    var q := Run(Append(p, data));
    (q, VerdictOf(q))
  }

  /** The bytes the loop takes off the front of the buffer, turn after turn. */
  function Taken(p: Parser): string
    decreases Rank(p.phase), |p.buffer|
  {
    var next := Step(p);
    if next.None? then ""
    else p.buffer[..|p.buffer| - |next.value.buffer|] + Taken(next.value)
  }

  lemma StepDropsFront(p: Parser)
    requires Step(p).Some?
    ensures Step(p).value.buffer == p.buffer[|p.buffer| - |Step(p).value.buffer|..]
  {
  }

  lemma FrontAndRest(b: string, n: nat, taken: string, left: string)
    requires n <= |b| && b[n..] == taken + left
    ensures b == (b[..n] + taken) + left
  {
    assert b == b[..n] + b[n..];
  }

  /** No byte is lost, repeated or moved: those taken, in order, then those left. */
  lemma {:induction false} InputConserved(p: Parser)
    ensures p.buffer == Taken(p) + Run(p).buffer
    decreases Rank(p.phase), |p.buffer|
  {
    var next := Step(p);
    if next.Some? {
      var q := next.value;
      InputConserved(q);
      StepDropsFront(p);
      FrontAndRest(p.buffer, |p.buffer| - |q.buffer|, Taken(q), Run(q).buffer);
    }
  }

  // ----- chunk independence -----

  lemma TakeDropExtend(b: string, x: string, pos: nat, n: nat)
    requires pos + n <= |b|
    ensures (b + x)[..pos] == b[..pos] && (b + x)[pos + n..] == b[pos + n..] + x
  {
  }

  /** A turn that can be taken is taken the same way when more input is waiting. */
  lemma StepExtend(p: Parser, x: string)
    requires Step(p).Some?
    ensures Step(Append(p, x)) == Some(Append(Step(p).value, x))
  {
    var b := p.buffer;
    match p.phase
    case Method =>
      FindExtend(b, x, " ");
      TakeDropExtend(b, x, Find(b, " "), 1);
    case Path =>
      FindExtend(b, x, " ");
      TakeDropExtend(b, x, Find(b, " "), 1);
    case Version =>
      FindExtend(b, x, CRLF);
      TakeDropExtend(b, x, Find(b, CRLF), 2);
    case Header =>
      if CRLF <= b {
        assert (b + x)[2..] == b[2..] + x;
      } else {
        FindExtend(b, x, CRLF);
        TakeDropExtend(b, x, Find(b, CRLF), 2);
      }
    case Body =>
      if CONTENT_LENGTH in p.req.headers {
        TakeDropExtend(b, x, SizeOf(Stoi(p.req.headers[CONTENT_LENGTH]).value), 0);
      }
    case Done =>
  }

  /** Input that arrives later can be put off until the loop has stopped on what came before. */
  lemma {:induction false} RunExtend(p: Parser, x: string)
    ensures Run(Append(p, x)) == Run(Append(Run(p), x))
    decreases Rank(p.phase), |p.buffer|
  {
    var next := Step(p);
    if next.Some? {
      StepExtend(p, x);
      RunExtend(next.value, x);
    }
  }

  function Concat(chunks: seq<string>): string {
    if chunks == [] then "" else chunks[0] + Concat(chunks[1..])
  }

  /** Successive calls of `parse` on one parser and one request; the last call's result. */
  function FeedAll(p: Parser, chunks: seq<string>): (Parser, Verdict)
    requires chunks != []
    decreases |chunks|
  {
    var first := Feed(p, chunks[0]);
    if |chunks| == 1 then first else FeedAll(first.0, chunks[1..])
  }

  /** The bytes successive calls take off the buffer. */
  function TakenAll(p: Parser, chunks: seq<string>): string
    decreases |chunks|
  {
    if chunks == [] then ""
    else
      var fed := Append(p, chunks[0]);
      Taken(fed) + TakenAll(Run(fed), chunks[1..])
  }

  /** Over any calls since construction or `reset`: the bytes taken, in order, then the buffer, are
      the bytes given. */
  lemma {:induction false} CallsConserveInput(p: Parser, chunks: seq<string>)
    requires chunks != []
    ensures p.buffer + Concat(chunks) == TakenAll(p, chunks) + FeedAll(p, chunks).0.buffer
    decreases |chunks|
  {
    var fed, rest := Append(p, chunks[0]), chunks[1..];
    InputConserved(fed);
    if rest == [] {
      assert chunks[0] + "" == chunks[0] && Taken(fed) + "" == Taken(fed);
    } else {
      CallsConserveInput(Run(fed), rest);
      Regrouped(p.buffer, chunks[0], Concat(rest), Taken(fed), Run(fed).buffer,
                TakenAll(Run(fed), rest), FeedAll(Run(fed), rest).0.buffer);
    }
  }

  lemma Regrouped(before: string, first: string, more: string, taken: string, mid: string, later: string, left: string)
    requires before + first == taken + mid && mid + more == later + left
    ensures before + (first + more) == (taken + later) + left
  {
    assert before + (first + more) == (before + first) + more == (taken + mid) + more == taken + (mid + more);
  }

  lemma {:induction false} FeedAllIsFeed(p: Parser, chunks: seq<string>)
    requires chunks != []
    ensures FeedAll(p, chunks) == Feed(p, Concat(chunks))
    decreases |chunks|
  {
    var rest := Concat(chunks[1..]);
    if |chunks| == 1 {
      assert chunks[0] + rest == chunks[0];
    } else {
      FeedAllIsFeed(Run(Append(p, chunks[0])), chunks[1..]);
      RunExtend(Append(p, chunks[0]), rest);
      assert p.buffer + chunks[0] + rest == p.buffer + Concat(chunks);
    }
  }

  /** However a byte string is split over calls, parser, request and last result are the same. */
  lemma ChunkIndependence(p: Parser, chunks: seq<string>, chunks': seq<string>)
    requires chunks != [] && chunks' != []
    requires Concat(chunks) == Concat(chunks')
    ensures FeedAll(p, chunks) == FeedAll(p, chunks')
  {
    FeedAllIsFeed(p, chunks);
    FeedAllIsFeed(p, chunks');
  }

  // ----- what is accepted -----

  /** A message by its parts: the header block is any list of lines. */
  datatype Message = Message(verb: string, path: string, version: string,
                             lines: seq<string>, body: string)

  function Lines(lines: seq<string>): string {
    if lines == [] then "" else lines[0] + CRLF + Lines(lines[1..])
  }

  function Wire(m: Message): string {
    m.verb + " " + m.path + " " + m.version + CRLF + Lines(m.lines) + CRLF + m.body
  }

  function AddLines(headers: map<string, string>, lines: seq<string>): map<string, string>
    decreases |lines|
  {
    if lines == [] then headers else AddLines(AddLine(headers, lines[0]), lines[1..])
  }

  ghost predicate CleanLines(lines: seq<string>) {
    forall i :: 0 <= i < |lines| ==> lines[i] != "" && Find(lines[i], CRLF) < 0
  }

  predicate HasBody(verb: string, headers: map<string, string>) {
    verb == "POST" && CONTENT_LENGTH in headers
  }

  /** The body is present for POST with a Content-Length, and has exactly that length. */
  predicate BodyFits(verb: string, headers: map<string, string>, body: string) {
    if HasBody(verb, headers) then
      var length := Stoi(headers[CONTENT_LENGTH]);
      length.Some? && |body| == SizeOf(length.value)
    else body == ""
  }

  /** The request line and the header block of `m` can be read. */
  ghost predicate HeadReadable(m: Message) {
    Find(m.verb, " ") < 0 && Find(m.path, " ") < 0 && Find(m.version, CRLF) < 0 && CleanLines(m.lines)
  }

  /** `m` is a message the parser reads into a request that holds the header map `h` before. */
  ghost predicate Readable(m: Message, h: map<string, string>) {
    && HeadReadable(m)
    && BodyFits(m.verb, AddLines(h, m.lines), m.body)
  }

  /** What the request object holds after `m` was read into `before`. */
  function RequestOf(m: Message, before: Request): Request {
    var headers := AddLines(before.headers, m.lines);
    Request(m.verb, m.path, m.version, headers,
            if HasBody(m.verb, headers) then m.body else before.body)
  }

  lemma {:induction false} HeadersRead(p: Parser, lines: seq<string>, rest: string)
    requires p.phase == Header && CleanLines(lines) && p.buffer == Lines(lines) + CRLF + rest
    ensures Run(p) == Run(Parser(if p.req.verb == "POST" then Body else Done, rest,
                                 p.req.(headers := AddLines(p.req.headers, lines))))
    decreases |lines|
  {
    var b := p.buffer;
    if lines == [] {
      assert b[..2] == CRLF && b[2..] == rest;
    } else {
      var more := Lines(lines[1..]) + CRLF + rest;
      assert b == lines[0] + CRLF + more;
      LineEnded(lines[0], more);
      var q := p.(buffer := more, req := p.req.(headers := AddLine(p.req.headers, lines[0])));
      assert Step(p) == Some(q);
      HeadersRead(q, lines[1..], rest);
    }
  }

  /** A text delimited by `sep`: what stands in front of it and what follows. */
  lemma Delimited(word: string, sep: char, rest: string)
    requires Find(word, [sep]) < 0
    ensures var b := word + [sep] + rest;
            Find(b, [sep]) == |word| && b[..|word|] == word && b[|word| + 1..] == rest
  {
    FindDelimited(word, sep, rest);
  }

  lemma LineEnded(line: string, rest: string)
    requires Find(line, CRLF) < 0
    ensures var b := line + CRLF + rest;
            Find(b, CRLF) == |line| && b[..|line|] == line && b[|line| + 2..] == rest
  {
    FindLineEnd(line, rest);
  }

  lemma RequestLineRead(m: Message, before: Request, rest: string)
    requires Find(m.verb, " ") < 0 && Find(m.path, " ") < 0 && Find(m.version, CRLF) < 0
    ensures Run(Parser(Method, m.verb + " " + (m.path + " " + (m.version + CRLF + rest)), before))
         == Run(Parser(Header, rest, before.(verb := m.verb, path := m.path, version := m.version)))
  {
    var b2 := m.version + CRLF + rest;
    var b1 := m.path + " " + b2;
    var b0 := m.verb + " " + b1;
    var p0 := Parser(Method, b0, before);
    var p1 := Parser(Path, b1, before.(verb := m.verb));
    var p2 := Parser(Version, b2, p1.req.(path := m.path));
    var p3 := Parser(Header, rest, p2.req.(version := m.version));
    assert Run(p0) == Run(p1) by { Delimited(m.verb, ' ', b1); }
    assert Run(p1) == Run(p2) by { Delimited(m.path, ' ', b2); }
    assert Run(p2) == Run(p3) by { LineEnded(m.version, rest); }
  }

  lemma WireSplit(m: Message, tail: string)
    ensures Wire(m) + tail
         == m.verb + " " + (m.path + " " + (m.version + CRLF + (Lines(m.lines) + CRLF + (m.body + tail))))
  {
  }

  /** Every readable message is read completely, and exactly what follows it is left. */
  lemma MessageRead(m: Message, before: Request, tail: string)
    requires Readable(m, before.headers)
    ensures Run(Parser(Method, Wire(m) + tail, before)) == Parser(Done, tail, RequestOf(m, before))
  {
    var rest := Lines(m.lines) + CRLF + (m.body + tail);
    WireSplit(m, tail);
    RequestLineRead(m, before, rest);
    var req := before.(verb := m.verb, path := m.path, version := m.version);
    HeadersRead(Parser(Header, rest, req), m.lines, m.body + tail);
  }

  lemma LinesCons(line: string, more: seq<string>, rest: string)
    requires line != "" && Find(line, CRLF) < 0 && CleanLines(more)
    ensures CleanLines([line] + more)
    ensures Lines([line] + more) + CRLF + rest == line + CRLF + (Lines(more) + CRLF + rest)
  {
    assert ([line] + more)[1..] == more;
  }

  /** The line a header turn reads. */
  lemma LineWas(p: Parser) returns (line: string)
    requires p.phase == Header && !(CRLF <= p.buffer) && Step(p).Some?
    ensures line != "" && Find(line, CRLF) < 0
    ensures p.buffer == line + CRLF + Step(p).value.buffer && Step(p).value.phase == Header
  {
    line := p.buffer[..Find(p.buffer, CRLF)];
    FindPrefix(p.buffer, CRLF);
  }

  predicate PastHeaders(phase: Phase) { phase == Body || phase == Done }

  /** The header block behind a run that has left it. */
  lemma {:induction false} HeadersWere(p: Parser) returns (lines: seq<string>, rest: string)
    requires p.phase == Header && PastHeaders(Run(p).phase)
    ensures CleanLines(lines) && p.buffer == Lines(lines) + CRLF + rest
    decreases |p.buffer|
  {
    if CRLF <= p.buffer {
      lines, rest := [], p.buffer[2..];
      assert p.buffer == CRLF + rest;
    } else {
      var next := Step(p).value;
      var line := LineWas(p);
      var more;
      more, rest := HeadersWere(next);
      lines := [line] + more;
      LinesCons(line, more, rest);
    }
  }

  /** The request line behind such a run; what is left for the header block is `p`. */
  lemma RequestLineWas(s: string, before: Request) returns (p: Parser)
    requires PastHeaders(Run(Parser(Method, s, before)).phase)
    ensures p.phase == Header && Run(p) == Run(Parser(Method, s, before))
    ensures Find(p.req.verb, " ") < 0 && Find(p.req.path, " ") < 0 && Find(p.req.version, CRLF) < 0
    ensures p.req.headers == before.headers && p.req.body == before.body
    ensures s == p.req.verb + " " + (p.req.path + " " + (p.req.version + CRLF + p.buffer))
  {
    var p0 := Parser(Method, s, before);
    FindPrefix(s, " ");
    var p1 := Step(p0).value;
    assert Run(p0) == Run(p1);
    FindPrefix(p1.buffer, " ");
    var p2 := Step(p1).value;
    assert Run(p1) == Run(p2);
    FindPrefix(p2.buffer, CRLF);
    p := Step(p2).value;
    assert Run(p2) == Run(p);
  }

  /** Whatever the parser accepts was a readable message. */
  lemma AcceptedWas(s: string, before: Request) returns (m: Message)
    requires Run(Parser(Method, s, before)).phase == Done
    ensures Readable(m, before.headers)
    ensures s == Wire(m) + Run(Parser(Method, s, before)).buffer
  {
    var p := RequestLineWas(s, before);
    var lines, rest := HeadersWere(p);
    HeadersRead(p, lines, rest);
    var req := p.req.(headers := AddLines(before.headers, lines));
    var body := BodyWas(req, rest);
    m := Message(req.verb, req.path, req.version, lines, body);
    WireSplit(m, Run(p).buffer);
  }

  /** The body behind a completed run, from the end of the headers on. */
  lemma BodyWas(req: Request, rest: string) returns (body: string)
    requires Run(Parser(if req.verb == "POST" then Body else Done, rest, req)).phase == Done
    ensures BodyFits(req.verb, req.headers, body)
    ensures rest == body + Run(Parser(if req.verb == "POST" then Body else Done, rest, req)).buffer
  {
    body := "";
    if HasBody(req.verb, req.headers) {
      var n := SizeOf(Stoi(req.headers[CONTENT_LENGTH]).value);
      body := rest[..n];
      assert rest == body + rest[n..];
    }
  }

  /** `parse` answers true exactly on readable messages, and says which message it was. */
  lemma AcceptedExactly(s: string, before: Request, after: Request, tail: string)
    ensures Feed(Parser(Method, "", before), s) == (Parser(Done, tail, after), Complete)
       <==> exists m :: Readable(m, before.headers) && s == Wire(m) + tail && after == RequestOf(m, before)
  {
    assert "" + s == s;
    if Run(Parser(Method, s, before)) == Parser(Done, tail, after) {
      var m := AcceptedWas(s, before);
      MessageRead(m, before, tail);
    }
    if m :| Readable(m, before.headers) && s == Wire(m) + tail && after == RequestOf(m, before) {
      MessageRead(m, before, tail);
    }
  }

  /** The message throws: it is a POST whose Content-Length stoi refuses, whatever its body. */
  predicate LengthRefused(m: Message, h: map<string, string>) {
    HasBody(m.verb, AddLines(h, m.lines)) && Stoi(AddLines(h, m.lines)[CONTENT_LENGTH]) == None
  }

  lemma HeadRead(m: Message, before: Request)
    requires HeadReadable(m)
    ensures Run(Parser(Method, Wire(m), before))
         == Run(Parser(if m.verb == "POST" then Body else Done, m.body,
                       Request(m.verb, m.path, m.version, AddLines(before.headers, m.lines), before.body)))
  {
    var rest := Lines(m.lines) + CRLF + (m.body + "");
    WireSplit(m, "");
    assert Wire(m) + "" == Wire(m) && m.body + "" == m.body;
    RequestLineRead(m, before, rest);
    HeadersRead(Parser(Header, rest, before.(verb := m.verb, path := m.path, version := m.version)), m.lines, m.body);
  }

  /** Whatever run left the headers behind began with a readable head. */
  lemma HeadWas(s: string, before: Request) returns (m: Message)
    requires PastHeaders(Run(Parser(Method, s, before)).phase)
    ensures HeadReadable(m) && s == Wire(m)
  {
    var p := RequestLineWas(s, before);
    var lines, rest := HeadersWere(p);
    m := Message(p.req.verb, p.req.path, p.req.version, lines, rest);
    WireSplit(m, "");
    assert Wire(m) + "" == Wire(m) && rest + "" == rest;
  }

  /** `parse` throws exactly on a readable head of a POST with a Content-Length that stoi refuses,
      followed by anything. */
  lemma BadLengthExactly(s: string, before: Request)
    ensures Feed(Parser(Method, "", before), s).1 == BadLength
       <==> exists m :: HeadReadable(m) && s == Wire(m) && LengthRefused(m, before.headers)
  {
    assert "" + s == s;
    var q := Run(Parser(Method, s, before));
    if VerdictOf(q) == BadLength {
      var m := HeadWas(s, before);
      HeadRead(m, before);
      RefusedStays(m, before);
      assert LengthRefused(m, before.headers);
    }
    if m :| HeadReadable(m) && s == Wire(m) && LengthRefused(m, before.headers) {
      HeadRead(m, before);
      RefusedStays(m, before);
    }
  }

  /** Where the loop stops behind a head, stoi has thrown exactly when the message has such a length. */
  lemma RefusedStays(m: Message, before: Request)
    ensures var req := Request(m.verb, m.path, m.version, AddLines(before.headers, m.lines), before.body);
            VerdictOf(Run(Parser(if m.verb == "POST" then Body else Done, m.body, req))) == BadLength
            <==> LengthRefused(m, before.headers)
  {
  }

  /** No proper prefix of a complete message is complete: a message cut short is never accepted. */
  lemma PrefixFree(s: string, x: string, before: Request)
    requires x != ""
    requires Run(Parser(Method, s + x, before)).phase == Done
    requires Run(Parser(Method, s + x, before)).buffer == ""
    ensures Feed(Parser(Method, "", before), s).1 != Complete
  {
    var p := Parser(Method, s, before);
    assert "" + s == s && Append(p, x) == Parser(Method, s + x, before);
    RunExtend(p, x);
  }

  /**
   A negative Content-Length becomes a size no buffer reaches: the message is never complete,
   whatever follows, as long as less than 2^64 - 2^31 bytes do.
   */
  lemma NegativeLengthStarves(p: Parser, data: string)
    requires p.phase == Body && CONTENT_LENGTH in p.req.headers
    requires var length := Stoi(p.req.headers[CONTENT_LENGTH]); length.Some? && length.value < 0
    requires |p.buffer| + |data| < SIZE_MODULUS + INT_MIN
    ensures Feed(p, data) == (Append(p, data), Incomplete)
  {
    var n := SizeOf(Stoi(p.req.headers[CONTENT_LENGTH]).value);
    assert n >= SIZE_MODULUS + INT_MIN;
  }

  // ----- headers -----

  ghost predicate NamesField(line: string, key: string) {
    Find(line, ":") >= 0 && line[..Find(line, ":")] == key
  }

  /** Line `i` is the last of `lines` that names `key`. */
  ghost predicate LastNaming(lines: seq<string>, key: string, i: int) {
    0 <= i < |lines| && NamesField(lines[i], key) && Unnamed(lines[i + 1..], key)
  }

  ghost predicate Unnamed(lines: seq<string>, key: string) {
    forall i :: 0 <= i < |lines| ==> !NamesField(lines[i], key)
  }

  /** A header no line names stays as it was. */
  lemma {:induction false} UnnamedKept(h: map<string, string>, lines: seq<string>, key: string)
    requires Unnamed(lines, key)
    ensures key in AddLines(h, lines) <==> key in h
    ensures key in h ==> AddLines(h, lines)[key] == h[key]
    decreases |lines|
  {
    if lines != [] {
      assert !NamesField(lines[0], key);
      assert Unnamed(lines[1..], key);
      UnnamedKept(AddLine(h, lines[0]), lines[1..], key);
    }
  }

  /** Each key is mapped to the value on the last line that names it. */
  lemma {:induction false} LastLineWins(h: map<string, string>, lines: seq<string>, key: string, i: nat)
    requires LastNaming(lines, key, i)
    ensures key in AddLines(h, lines)
    ensures AddLines(h, lines)[key] == DropOneSpace(lines[i][Find(lines[i], ":") + 1..])
    decreases |lines|
  {
    var h', rest := AddLine(h, lines[0]), lines[1..];
    if i == 0 {
      UnnamedKept(h', rest, key);
    } else {
      assert rest[i - 1] == lines[i] && rest[i..] == lines[i + 1..];
      LastLineWins(h', rest, key, i - 1);
    }
  }

  // ----- printing and parsing back -----

  /** A header field, and whether it is printed with a space behind the colon. */
  datatype Field = Field(name: string, value: string, spaced: bool)

  function LineOf(f: Field): string {
    f.name + (if f.spaced then ": " else ":") + f.value
  }

  function FieldLines(fields: seq<Field>): seq<string> {
    seq(|fields|, i requires 0 <= i < |fields| => LineOf(fields[i]))
  }

  function FieldMap(fields: seq<Field>): map<string, string> {
    if fields == [] then map[]
    else FieldMap(fields[..|fields| - 1])[fields[|fields| - 1].name := fields[|fields| - 1].value]
  }

  function Print(r: Request, fields: seq<Field>): string {
    Wire(Message(r.verb, r.path, r.version, FieldLines(fields), r.body))
  }

  /** One space is read off a value; so one that begins with a space has to be printed behind another. */
  ghost predicate CleanField(f: Field) {
    && Find(f.name, ":") < 0 && Find(f.name, CRLF) < 0 && Find(f.value, CRLF) < 0
    && (f.spaced || f.value == "" || f.value[0] != ' ')
  }

  ghost predicate CleanFields(fields: seq<Field>) {
    forall i :: 0 <= i < |fields| ==> CleanField(fields[i])
  }

  /** A request with a canonical Content-Length exactly where it has a body. */
  ghost predicate Printable(r: Request) {
    && Find(r.verb, " ") < 0
    && Find(r.path, " ") < 0
    && Find(r.version, CRLF) < 0
    && if HasBody(r.verb, r.headers)
       then |r.body| <= INT_MAX && r.headers[CONTENT_LENGTH] == Decimal(|r.body|)
       else r.body == ""
  }

  /** `name:value` and `name: value` both mean the value, whatever its first character. */
  lemma FieldLineRead(f: Field, h: map<string, string>)
    requires Find(f.name, ":") < 0 && (f.spaced || f.value == "" || f.value[0] != ' ')
    ensures AddLine(h, LineOf(f)) == h[f.name := f.value]
    ensures NamesField(LineOf(f), f.name)
  {
    var line, rest := LineOf(f), if f.spaced then " " + f.value else f.value;
    assert line == f.name + ":" + rest;
    FindDelimited(f.name, ':', rest);
    assert line[..|f.name|] == f.name;
    assert line[|f.name| + 1..] == rest;
  }

  /** The value of a header is what its last line says, written `name:value` or `name: value`. */
  lemma LastFieldWins(h: map<string, string>, lines: seq<string>, i: nat, f: Field)
    requires i < |lines| && lines[i] == f.name + (if f.spaced then ": " else ":") + f.value
    requires Find(f.name, ":") < 0 && (f.spaced || f.value == "" || f.value[0] != ' ')
    requires Unnamed(lines[i + 1..], f.name)
    ensures f.name in AddLines(h, lines) && AddLines(h, lines)[f.name] == f.value
  {
    FieldLineRead(f, map[]);
    LastLineWins(h, lines, f.name, i);
    LineValue(f);
  }

  lemma LineValue(f: Field)
    requires Find(f.name, ":") < 0 && (f.spaced || f.value == "" || f.value[0] != ' ')
    ensures Find(LineOf(f), ":") == |f.name| && DropOneSpace(LineOf(f)[|f.name| + 1..]) == f.value
  {
    var line, rest := LineOf(f), if f.spaced then " " + f.value else f.value;
    assert line == f.name + ":" + rest;
    FindDelimited(f.name, ':', rest);
    assert line[|f.name| + 1..] == rest;
  }

  /** A line end in a field line lies in its name or in its value. */
  lemma LineEndWithin(f: Field)
    ensures Find(LineOf(f), CRLF) >= 0 ==> Find(f.name, CRLF) >= 0 || Find(f.value, CRLF) >= 0
  {
    var sep := if f.spaced then ": " else ":";
    var line := LineOf(f);
    var pos := Find(line, CRLF);
    var n := |f.name|;
    if pos >= 0 {
      assert line[pos] == line[pos..pos + 2][0] == '\r';
      assert line[pos + 1] == line[pos..pos + 2][1] == '\n';
      assert line[n] == ':' && (f.spaced ==> line[n + 1] == ' ');
      if pos < n {
        assert "" + f.name + (sep + f.value) == line;
        AtPart("", f.name, sep + f.value, CRLF, pos);
      } else {
        assert (f.name + sep) + f.value + "" == line;
        AtPart(f.name + sep, f.value, "", CRLF, pos);
      }
    }
  }

  lemma {:induction false} AddLinesSnoc(h: map<string, string>, lines: seq<string>, line: string)
    ensures AddLines(h, lines + [line]) == AddLine(AddLines(h, lines), line)
    decreases |lines|
  {
    if lines == [] {
      assert AddLines(AddLine(h, line), []) == AddLine(h, line);
    } else {
      AddLinesSnoc(AddLine(h, lines[0]), lines[1..], line);
      assert (lines + [line])[1..] == lines[1..] + [line];
    }
  }

  lemma FieldLinesClean(fields: seq<Field>)
    requires CleanFields(fields)
    ensures CleanLines(FieldLines(fields))
  {
    forall i | 0 <= i < |fields| ensures Find(FieldLines(fields)[i], CRLF) < 0 {
      assert CleanField(fields[i]);
      LineEndWithin(fields[i]);
    }
  }

  lemma {:induction false} FieldsRead(fields: seq<Field>)
    requires CleanFields(fields)
    ensures AddLines(map[], FieldLines(fields)) == FieldMap(fields)
  {
    if fields != [] {
      var init, last := fields[..|fields| - 1], fields[|fields| - 1];
      assert CleanField(last);
      FieldsRead(init);
      assert FieldLines(fields) == FieldLines(init) + [LineOf(last)];
      AddLinesSnoc(map[], FieldLines(init), LineOf(last));
      FieldLineRead(last, FieldMap(init));
    }
  }

  /**
   Printing then parsing: any printable request, its headers listed in any order, with or without
   a space behind each colon (and even with repeated names, as long as the last of each is the
   request's), comes back unchanged, in any split of the bytes, and the bytes behind it stay in the
   buffer.
   */
  lemma RoundTrip(r: Request, fields: seq<Field>, tail: string, chunks: seq<string>)
    requires Printable(r) && CleanFields(fields) && FieldMap(fields) == r.headers
    requires chunks != [] && Concat(chunks) == Print(r, fields) + tail
    ensures FeedAll(Parser(Method, "", EMPTY_REQUEST), chunks) == (Parser(Done, tail, r), Complete)
  {
    var m := Message(r.verb, r.path, r.version, FieldLines(fields), r.body);
    FieldLinesClean(fields);
    FieldsRead(fields);
    if HasBody(r.verb, r.headers) {
      StoiDecimal(|r.body|);
    }
    MessageRead(m, EMPTY_REQUEST, tail);
    FeedAllIsFeed(Parser(Method, "", EMPTY_REQUEST), chunks);
    assert "" + Concat(chunks) == Wire(m) + tail;
  }

  // ----- requests as they are written -----

  /** A request with a single header line. */
  function OneHeader(verb: string, path: string, version: string, name: string, value: string, rest: string): string {
    verb + " " + path + " " + version + "\r\n" + (name + ": " + value) + "\r\n" + "\r\n" + rest
  }

  lemma OneHeaderWire(verb: string, path: string, version: string, name: string, value: string, body: string,
                      tail: string)
    ensures OneHeader(verb, path, version, name, value, body + tail)
         == Wire(Message(verb, path, version, [name + ": " + value], body)) + tail
  {
    var line := name + ": " + value;
    assert [line][1..] == [] && Lines([]) == "";
    assert Lines([line]) == line + CRLF + "";
    assert line + CRLF + "" == line + CRLF;
    WireSplit(Message(verb, path, version, [line], body), tail);
  }

  lemma OneHeaderRead(verb: string, path: string, version: string, name: string, value: string, body: string,
                      tail: string)
    requires Find(verb, " ") < 0 && Find(path, " ") < 0 && Find(version, "\r\n") < 0
    requires Find(name, ":") < 0 && Find(name, "\r\n") < 0 && Find(value, "\r\n") < 0
    requires BodyFits(verb, map[name := value], body)
    ensures Feed(Parser(Method, "", EMPTY_REQUEST), OneHeader(verb, path, version, name, value, body + tail))
         == (Parser(Done, tail, Request(verb, path, version, map[name := value], body)), Complete)
  {
    var f := Field(name, value, true);
    var m := Message(verb, path, version, [LineOf(f)], body);
    FieldLineRead(f, map[]);
    assert [LineOf(f)][1..] == [];
    assert AddLines(map[], [LineOf(f)]) == AddLines(AddLine(map[], LineOf(f)), []);
    LineEndWithin(f);
    OneHeaderWire(verb, path, version, name, value, body, tail);
    MessageRead(m, EMPTY_REQUEST, tail);
    assert "" + (Wire(m) + tail) == Wire(m) + tail;
  }

  /** `POST` with a Content-Length reads so many bytes as body, and leaves the rest. */
  lemma PostRead(verb: string, path: string, version: string, name: string, body: string, tail: string)
    requires verb == "POST" && name == "Content-Length"
    requires Find(path, " ") < 0 && Find(version, "\r\n") < 0 && |body| <= INT_MAX
    ensures var length := Decimal(|body|);
            Feed(Parser(Method, "", EMPTY_REQUEST), OneHeader(verb, path, version, name, length, body + tail))
            == (Parser(Done, tail, Request(verb, path, version, map[name := length], body)), Complete)
  {
    PostClean();
    LengthClean(|body|);
    LengthFits(body);
    OneHeaderRead(verb, path, version, name, Decimal(|body|), body, tail);
  }

  lemma PostClean()
    ensures Find("POST", " ") < 0
  {
    FirstCharacter("POST", " ");
  }

  lemma LengthFits(body: string)
    requires |body| <= INT_MAX
    ensures BodyFits("POST", map["Content-Length" := Decimal(|body|)], body)
  {
    StoiDecimal(|body|);
  }

  lemma LengthClean(n: nat)
    ensures Find("Content-Length", ":") < 0 && Find("Content-Length", "\r\n") < 0 && Find(Decimal(n), "\r\n") < 0
  {
    FirstCharacter("Content-Length", ":");
    FirstCharacter("Content-Length", "\r\n");
    DecimalValue(n);
    FirstCharacter(Decimal(n), "\r\n");
  }

  /** Any other method has no body, whatever its headers say; and a header is Content-Length only
      under that very name. */
  lemma NoBodyRead(verb: string, path: string, version: string, name: string, value: string, tail: string)
    requires Find(verb, " ") < 0 && Find(path, " ") < 0 && Find(version, "\r\n") < 0
    requires Find(name, ":") < 0 && Find(name, "\r\n") < 0 && Find(value, "\r\n") < 0
    requires verb != "POST" || name != "Content-Length"
    ensures Feed(Parser(Method, "", EMPTY_REQUEST), OneHeader(verb, path, version, name, value, tail))
         == (Parser(Done, tail, Request(verb, path, version, map[name := value], "")), Complete)
  {
    OneHeaderRead(verb, path, version, name, value, "", tail);
    assert "" + tail == tail;
  }

  // ----- the loop -----

  class HttpRequest {
    var verb: string
    var path: string
    var version: string
    var headers: map<string, string>
    var body: string

    constructor ()
      ensures View() == EMPTY_REQUEST
    {
      verb, path, version, headers, body := "", "", "", map[], "";
    }

    ghost function View(): Request
      reads this
    {
      Request(verb, path, version, headers, body)
    }
  }

  class HttpParser {
    var state: Phase
    var buffer: string

    constructor ()
      ensures state == Method && buffer == ""
    {
      state, buffer := Method, "";
    }

    ghost function View(req: HttpRequest): Parser
      reads this, req
    {
      Parser(state, buffer, req.View())
    }

    method AddHeader(line: string, req: HttpRequest)
      modifies req
      ensures req.View() == old(req.View()).(headers := AddLine(old(req.headers), line))
    {
      var colon := Find(line, ":");
      if colon >= 0 {
        var key, value := line[..colon], line[colon + 1..];
        if value != "" && value[0] == ' ' { value := value[1..]; }
        req.headers := req.headers[key := value];
      }
    }

    /** One turn of the switch: taken, if `stop` is None, else what `parse` returns. */
    ghost predicate Turned(before: Parser, after: Parser, stop: Option<Verdict>) {
      if stop == None then Step(before) == Some(after)
      else Step(before) == None && after == before && stop.value == VerdictOf(before)
    }

    method TakeVerb(req: HttpRequest) returns (stop: Option<Verdict>)
      requires state == Method
      modifies this, req
      ensures Turned(old(View(req)), View(req), stop)
    {
      var pos := Find(buffer, " ");
      if pos < 0 { return Some(Incomplete); }
      req.verb := buffer[..pos];
      buffer := buffer[pos + 1..];
      state := Path;
      stop := None;
    }

    method TakePath(req: HttpRequest) returns (stop: Option<Verdict>)
      requires state == Path
      modifies this, req
      ensures Turned(old(View(req)), View(req), stop)
    {
      var pos := Find(buffer, " ");
      if pos < 0 { return Some(Incomplete); }
      req.path := buffer[..pos];
      buffer := buffer[pos + 1..];
      state := Version;
      stop := None;
    }

    method TakeVersion(req: HttpRequest) returns (stop: Option<Verdict>)
      requires state == Version
      modifies this, req
      ensures Turned(old(View(req)), View(req), stop)
    {
      var pos := Find(buffer, CRLF);
      if pos < 0 { return Some(Incomplete); }
      req.version := buffer[..pos];
      buffer := buffer[pos + 2..];
      state := Header;
      stop := None;
    }

    method TakeHeader(req: HttpRequest) returns (stop: Option<Verdict>)
      requires state == Header
      modifies this, req
      ensures Turned(old(View(req)), View(req), stop)
    {
      if CRLF <= buffer {
        buffer := buffer[2..];
        state := if req.verb == "POST" then Body else Done;
      } else {
        var pos := Find(buffer, CRLF);
        if pos < 0 { return Some(Incomplete); }
        var line := buffer[..pos];
        buffer := buffer[pos + 2..];
        AddHeader(line, req);
      }
      stop := None;
    }

    method TakeBody(req: HttpRequest) returns (stop: Option<Verdict>)
      requires state == Body
      modifies this, req
      ensures Turned(old(View(req)), View(req), stop)
    {
      if CONTENT_LENGTH !in req.headers {
        state := Done;
      } else {
        var length := Stoi(req.headers[CONTENT_LENGTH]);
        if length.None? { return Some(BadLength); }
        if |buffer| < SizeOf(length.value) { return Some(Incomplete); }
        req.body := buffer[..SizeOf(length.value)];
        buffer := buffer[SizeOf(length.value)..];
        state := Done;
      }
      stop := None;
    }

    /** The switch. */
    method Turn(req: HttpRequest) returns (stop: Option<Verdict>)
      requires state != Done
      modifies this, req
      ensures Turned(old(View(req)), View(req), stop)
    {
      match state {
        case Method => stop := TakeVerb(req);
        case Path => stop := TakePath(req);
        case Version => stop := TakeVersion(req);
        case Header => stop := TakeHeader(req);
        case Body => stop := TakeBody(req);
      }
    }

    method Parse(data: string, req: HttpRequest) returns (verdict: Verdict)
      modifies this, req
      ensures (View(req), verdict) == Feed(old(View(req)), data)
    {
      buffer := buffer + data;
      while state != Done
        invariant Run(View(req)) == Run(Append(old(View(req)), data))
        decreases Rank(state), |buffer|
      {
        ghost var p := View(req);
        var stop := Turn(req);
        if stop.Some? { return stop.value; }
      }
      return Complete;
    }

    method Reset()
      modifies this
      ensures state == Method && buffer == ""
    {
      state, buffer := Method, "";
    }
  }
}
