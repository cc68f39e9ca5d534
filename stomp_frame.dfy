/** The STOMP frame value and its line-oriented text form
    (`client/src/StompFrame.cpp`). The codec has no header escaping and no
    `content-length`: a header is split at its first colon, and the body is
    everything after the first empty line. */
module Frames {
  import opened Wrappers
  import opened Text
  import opened FrameTypes

  datatype Header = Header(key: string, value: string)

  /** Kind, headers in insertion order (keys may repeat) and body. */
  datatype Frame = Frame(kind: FrameType, headers: seq<Header>, body: string)

  /** The ways the parsing constructor fails to produce a frame. */
  datatype DecodeError =
      /** No newline at all: the type is left unset (an empty text) or the
          header loop never ends (any other text). */
    | MissingTypeLine
      /** The first line is not a frame name: `stringToFrameType` throws. */
    | UnknownType(name: string)
      /** A header line with no newline after it: the cursor wraps from
          `npos + 1` back to 0 and the header loop never ends. */
    | UnterminatedHeader

  function HeaderLine(h: Header): string {
    h.key + ":" + h.value + "\n"
  }

  /** One `key:value` line per header, in order. */
  function HeaderLines(hs: seq<Header>): string {
    if hs == [] then [] else HeaderLine(hs[0]) + HeaderLines(hs[1..])
  }

  lemma {:induction false} HeaderLinesSnoc(hs: seq<Header>, h: Header)
    ensures HeaderLines(hs + [h]) == HeaderLines(hs) + HeaderLine(h)
  {
    if hs == [] {
      assert HeaderLines([h]) == HeaderLine(h) + HeaderLines([]);
    } else {
      assert (hs + [h])[1..] == hs[1..] + [h];
      HeaderLinesSnoc(hs[1..], h);
    }
  }

  /** The text `toString` produces: the kind's name, a newline, a
      `key:value` line per header, an empty line, the body and a newline.
      No NUL terminator is written (the transport appends it). */
  function Encoding(f: Frame): string {
    ToString(f.kind) + "\n" + HeaderLines(f.headers) + "\n" + f.body + "\n"
  }

  /** `StompFrame::toString`. */
  method Encode(f: Frame) returns (text: string)
    ensures text == Encoding(f)
  {
    text := ToString(f.kind) + "\n";
    for i := 0 to |f.headers|
      invariant text == ToString(f.kind) + "\n" + HeaderLines(f.headers[..i])
    {
      var h := f.headers[i];
      assert f.headers[..i + 1] == f.headers[..i] + [h];
      HeaderLinesSnoc(f.headers[..i], h);
      text := text + h.key + ":" + h.value + "\n";
    }
    assert f.headers[..|f.headers|] == f.headers;
    text := text + "\n";
    text := text + f.body + "\n";
  }

  /** `line.find(':')` and the two `substr` calls of the header loop. */
  function HeaderOfLine(line: string): Option<Header> {
    var c := IndexOf(line, ':', 0);
    if c == |line| then None else Some(Header(line[..c], line[c + 1..]))
  }

  /** A header line is split at its first colon, so the key holds no colon
      and the value may hold more; a line without a colon gives no header
      and is dropped. */
  lemma HeaderOfLineSplit(line: string)
    ensures HeaderOfLine(line).None? <==> ':' !in line
    ensures HeaderOfLine(line).Some? ==>
      var h := HeaderOfLine(line).value;
      ':' !in h.key && line == h.key + ":" + h.value
  {
    var c := IndexOf(line, ':', 0);
    if c < |line| {
      assert line == line[..c] + ":" + line[c + 1..];
    }
  }

  /** The headers one line contributes: none or one. */
  function LineHeaders(line: string): seq<Header> {
    var h := HeaderOfLine(line);
    if h.Some? then [h.value] else []
  }

  /** The scan's outcome: the headers read and the text after the header
      section, or the reason it fails. */
  type Scan = Result<(seq<Header>, string), DecodeError>

  function Prepend(hs: seq<Header>, r: Scan): Scan {
    match r
    case Ok((more, rest)) => Ok((hs + more, rest))
    case Err(e) => Err(e)
  }

  lemma PrependNothing(r: Scan)
    ensures Prepend([], r) == r
  {
    match r
    case Ok((more, rest)) => assert [] + more == more;
    case Err(_) =>
  }

  lemma PrependPrepend(a: seq<Header>, b: seq<Header>, r: Scan)
    ensures Prepend(a, Prepend(b, r)) == Prepend(a + b, r)
  {
    match r
    case Ok((more, rest)) => assert a + (b + more) == (a + b) + more;
    case Err(_) =>
  }

  /** The header section at the start of `text` (what follows the type
      line): a header from each line before the first empty line, and the
      text after that empty line. Running out of text ends the section
      too; a last line without its newline does not end it. */
  function Section(text: string): Scan
    decreases |text|, 1
  {
    if text == [] then Ok(([], [])) else SectionAt(text, IndexOf(text, '\n', 0))
  }

  /** The section once the end of its first line is known. */
  function SectionAt(text: string, lineEnd: nat): Scan
    requires lineEnd <= |text|
    decreases |text|, 0
  {
    if lineEnd == |text| then Err(UnterminatedHeader)
    else if lineEnd == 0 then Ok(([], text[1..]))
    else Prepend(LineHeaders(text[..lineEnd]), Section(text[lineEnd + 1..]))
  }

  /** The body: at most one trailing newline removed. */
  function BodyOf(rest: string): string {
    if rest != [] && rest[|rest| - 1] == '\n' then rest[..|rest| - 1] else rest
  }

  /** At most one trailing NUL removed. */
  function StripNul(raw: string): string {
    if raw != [] && raw[|raw| - 1] == '\0' then raw[..|raw| - 1] else raw
  }

  /** What the parsing constructor makes of a text once its NUL is gone. */
  function DecodeText(frame: string): Result<Frame, DecodeError> {
    var nl := IndexOf(frame, '\n', 0);
    if nl == |frame| then Err(MissingTypeLine)
    else
      match FromString(frame[..nl])
      case None => Err(UnknownType(frame[..nl]))
      case Some(kind) =>
        match Section(frame[nl + 1..])
        case Err(e) => Err(e)
        case Ok((hs, rest)) => Ok(Frame(kind, hs, BodyOf(rest)))
  }

  /** What the parsing constructor `StompFrame(const std::string&)` makes of
      a raw text. */
  function Decoding(raw: string): Result<Frame, DecodeError> {
    DecodeText(StripNul(raw))
  }

  /** The header loop of the parsing constructor: the cursor steps from
      `start` through the lines until an empty line or the end of the text.
      On success it returns the headers and the cursor after the section. */
  method ScanHeaders(frame: string, start: nat) returns (r: Result<(seq<Header>, nat), DecodeError>)
    requires start <= |frame|
    ensures r.Err? ==> Section(frame[start..]) == Err(r.error)
    ensures r.Ok? ==> r.value.1 <= |frame| && Section(frame[start..]) == Ok((r.value.0, frame[r.value.1..]))
  {
    PrependNothing(Section(frame[start..]));
    var pos := start;
    var headers: seq<Header> := [];
    while pos < |frame|
      invariant start <= pos <= |frame|
      invariant Section(frame[start..]) == Prepend(headers, Section(frame[pos..]))
      decreases |frame| - pos
    {
      var lineEnd := IndexOf(frame, '\n', pos);
      if lineEnd == |frame| {
        SectionUnterminated(frame, pos, headers);
        return Err(UnterminatedHeader);
      }
      if lineEnd == pos {
        SectionBlankLine(frame, pos, headers);
        return Ok((headers, lineEnd + 1));
      }
      var more := headers + LineHeaders(frame[pos..lineEnd]);
      SectionLine(frame, pos, lineEnd, headers, more);
      headers, pos := more, lineEnd + 1;
    }
    SectionAtEnd(frame, headers);
    return Ok((headers, pos));
  }

  /** The line at the cursor, as the loop sees it: its end, its text and
      what follows its newline. */
  lemma LineAtCursor(frame: string, pos: nat)
    requires pos < |frame|
    ensures frame[pos..] != []
    ensures IndexOf(frame[pos..], '\n', 0) == IndexOf(frame, '\n', pos) - pos
    ensures IndexOf(frame, '\n', pos) < |frame| ==>
      && frame[pos..][..IndexOf(frame, '\n', pos) - pos] == frame[pos..IndexOf(frame, '\n', pos)]
      && frame[pos..][IndexOf(frame, '\n', pos) - pos + 1..] == frame[IndexOf(frame, '\n', pos) + 1..]
  {
    IndexOfSuffix(frame, '\n', pos);
  }

  lemma SectionUnterminated(frame: string, pos: nat, headers: seq<Header>)
    requires pos < |frame| && IndexOf(frame, '\n', pos) == |frame|
    ensures Prepend(headers, Section(frame[pos..])) == Err(UnterminatedHeader)
  {
    LineAtCursor(frame, pos);
  }

  lemma SectionBlankLine(frame: string, pos: nat, headers: seq<Header>)
    requires pos < |frame| && IndexOf(frame, '\n', pos) == pos
    ensures Prepend(headers, Section(frame[pos..])) == Ok((headers, frame[pos + 1..]))
  {
    LineAtCursor(frame, pos);
    assert headers + [] == headers;
  }

  lemma SectionAtEnd(frame: string, headers: seq<Header>)
    ensures Prepend(headers, Section(frame[|frame|..])) == Ok((headers, frame[|frame|..]))
  {
    assert headers + [] == headers;
  }

  lemma SectionLine(frame: string, pos: nat, lineEnd: nat, headers: seq<Header>, more: seq<Header>)
    requires pos < lineEnd < |frame| && lineEnd == IndexOf(frame, '\n', pos)
    requires more == headers + LineHeaders(frame[pos..lineEnd])
    ensures Prepend(headers, Section(frame[pos..])) == Prepend(more, Section(frame[lineEnd + 1..]))
  {
    LineAtCursor(frame, pos);
    PrependPrepend(headers, LineHeaders(frame[pos..lineEnd]), Section(frame[lineEnd + 1..]));
  }

  /** The parsing constructor `StompFrame(const std::string&)`: drop one
      NUL, read the type line, scan the headers, keep the rest as body. */
  method Decode(raw: string) returns (r: Result<Frame, DecodeError>)
    ensures r == Decoding(raw)
  {
    var frame := raw;
    if |frame| > 0 && frame[|frame| - 1] == '\0' {
      frame := frame[..|frame| - 1];
    }
    assert frame == StripNul(raw);
    var firstNewline := IndexOf(frame, '\n', 0);
    if firstNewline == |frame| {
      return Err(MissingTypeLine);
    }
    var kind := FromString(frame[..firstNewline]);
    if kind.None? {
      return Err(UnknownType(frame[..firstNewline]));
    }
    var scanned := ScanHeaders(frame, firstNewline + 1);
    if scanned.Err? {
      return Err(scanned.error);
    }
    var (headers, pos) := scanned.value;
    var body := ReadBody(frame, pos);
    return Ok(Frame(kind.value, headers, body));
  }

  /** The body step of the parsing constructor: the text after the header
      section, without one trailing newline. */
  method ReadBody(frame: string, pos: nat) returns (body: string)
    requires pos <= |frame|
    ensures body == BodyOf(frame[pos..])
  {
    body := "";
    if pos < |frame| {
      body := frame[pos..];
      if body[|body| - 1] == '\n' {
        body := body[..|body| - 1];
      }
    }
  }

  /** A header whose line the decoder reads back as written: the key holds
      no colon and neither part holds a newline. */
  predicate HeaderEncodable(h: Header) {
    ':' !in h.key && '\n' !in h.key && '\n' !in h.value
  }

  predicate HeadersEncodable(hs: seq<Header>) {
    forall i :: 0 <= i < |hs| ==> HeaderEncodable(hs[i])
  }

  /** The line written for a header whose key holds no colon is read back
      as that header. */
  lemma LineHeadersOfHeader(h: Header)
    requires ':' !in h.key
    ensures LineHeaders(h.key + ":" + h.value) == [h]
  {
    var line := h.key + ":" + h.value;
    IndexOfAfter(h.key, ':', h.value);
    assert line[..|h.key|] == h.key && line[|h.key| + 1..] == h.value;
  }

  /** A text made of a line, a newline and more text: the first newline
      ends the line. */
  lemma LineSplit(line: string, more: string)
    requires '\n' !in line
    ensures IndexOf(line + "\n" + more, '\n', 0) == |line|
    ensures (line + "\n" + more)[..|line|] == line
    ensures (line + "\n" + more)[|line| + 1..] == more
  {
    IndexOfAfter(line, '\n', more);
  }

  lemma Regroup(line: string, mid: string, b: string)
    ensures line + "\n" + mid + "\n" + b == line + "\n" + (mid + "\n" + b)
  {
  }

  /** A non-empty line at the start of the section gives its headers, and
      the section goes on after its newline. */
  lemma SectionOfLine(line: string, more: string)
    requires line != [] && '\n' !in line
    ensures Section(line + "\n" + more) == Prepend(LineHeaders(line), Section(more))
  {
    LineSplit(line, more);
  }

  /** The lines of encodable headers and an empty line are read back as
      those headers, and the section ends right after the empty line. */
  lemma {:induction false} SectionOfLines(hs: seq<Header>, b: string)
    requires HeadersEncodable(hs)
    ensures Section(HeaderLines(hs) + "\n" + b) == Ok((hs, b))
    decreases |hs|
  {
    if hs == [] {
      assert HeaderLines(hs) + "\n" + b == "\n" + b;
      assert ("\n" + b)[1..] == b;
    } else {
      SectionOfLines(hs[1..], b);
      Regroup(hs[0].key + ":" + hs[0].value, HeaderLines(hs[1..]), b);
      SectionOfLine(hs[0].key + ":" + hs[0].value, HeaderLines(hs[1..]) + "\n" + b);
      LineHeadersOfHeader(hs[0]);
      assert [hs[0]] + hs[1..] == hs;
    }
  }

  /** The same layout with the type line given as any text that names
      the kind. */
  lemma DecodeNamedLayout(name: string, kind: FrameType, hs: seq<Header>, b: string)
    requires '\n' !in name && FromString(name) == Some(kind)
    requires HeadersEncodable(hs)
    requires b == [] || b[|b| - 1] != '\0'
    ensures Decoding(name + "\n" + HeaderLines(hs) + "\n" + b) == Ok(Frame(kind, hs, BodyOf(b)))
  {
    Regroup(name, HeaderLines(hs), b);
    LineSplit(name, HeaderLines(hs) + "\n" + b);
    SectionOfLines(hs, b);
  }

  /** A type line, encodable headers, an empty line and any text `b` decode
      to that kind, those headers in order, and `b` with at most one trailing
      newline removed — as long as `b` does not end in a NUL. */
  lemma DecodeLayout(kind: FrameType, hs: seq<Header>, b: string)
    requires HeadersEncodable(hs)
    requires b == [] || b[|b| - 1] != '\0'
    ensures Decoding(ToString(kind) + "\n" + HeaderLines(hs) + "\n" + b) == Ok(Frame(kind, hs, BodyOf(b)))
  {
    FromStringOfToString(kind);
    DecodeNamedLayout(ToString(kind), kind, hs, b);
  }

  /** Frames the codec reproduces exactly. */
  predicate Encodable(f: Frame) {
    HeadersEncodable(f.headers)
  }

  /** Decoding an encoded frame gives back its kind, its headers in order
      and its body, with or without the NUL the transport appends. */
  lemma RoundTrip(f: Frame)
    requires Encodable(f)
    ensures Decoding(Encoding(f)) == Ok(f)
    ensures Decoding(Encoding(f) + "\0") == Ok(f)
  {
    var b := f.body + "\n";
    assert Encoding(f) == ToString(f.kind) + "\n" + HeaderLines(f.headers) + "\n" + b;
    DecodeLayout(f.kind, f.headers, b);
    assert BodyOf(b) == f.body;
    var raw := Encoding(f) + "\0";
    assert StripNul(raw) == Encoding(f);
  }

  /** Only one trailing NUL is removed before parsing: a second one is
      parsed as text. */
  lemma DecodeStripsOneNul(text: string)
    ensures Decoding(text + "\0") == DecodeText(text)
  {
    assert (text + "\0")[..|text|] == text;
  }

  /** Text with no newline has no type line. */
  lemma DecodeWithoutNewline(raw: string)
    requires '\n' !in StripNul(raw)
    ensures Decoding(raw) == Err(MissingTypeLine)
  {
  }

  /** A first line that is not one of the nine names is rejected. */
  lemma DecodeUnknownType(line: string, rest: string)
    requires '\n' !in line
    requires forall t :: ToString(t) != line
    requires rest == [] || rest[|rest| - 1] != '\0'
    ensures Decoding(line + "\n" + rest) == Err(UnknownType(line))
  {
    LineSplit(line, rest);
    FromStringRejects(line);
  }

  /** A last header line without its newline is the text on which the
      source's header loop never ends. */
  lemma DecodeUnterminatedHeader(kind: FrameType, line: string)
    requires line != [] && '\n' !in line && line[|line| - 1] != '\0'
    ensures Decoding(ToString(kind) + "\n" + line) == Err(UnterminatedHeader)
  {
    FromStringOfToString(kind);
    DecodeNamedUnterminated(ToString(kind), kind, line);
  }

  lemma DecodeNamedUnterminated(name: string, kind: FrameType, line: string)
    requires '\n' !in name && FromString(name) == Some(kind)
    requires line != [] && '\n' !in line && line[|line| - 1] != '\0'
    ensures Decoding(name + "\n" + line) == Err(UnterminatedHeader)
  {
    assert (name + "\n" + line)[|name + "\n" + line| - 1] == line[|line| - 1];
    LineSplit(name, line);
    assert Section(line) == Err(UnterminatedHeader);
  }

  /** `getHeaderValue`: the value of the first header with key `k`, or the
      empty string when none has it. */
  function HeaderValue(hs: seq<Header>, k: string): string {
    if hs == [] then "" else if hs[0].key == k then hs[0].value else HeaderValue(hs[1..], k)
  }

  /** The first header with the key decides the value. */
  lemma {:induction false} HeaderValueFirst(hs: seq<Header>, k: string, i: nat)
    requires i < |hs| && hs[i].key == k
    requires forall j :: 0 <= j < i ==> hs[j].key != k
    ensures HeaderValue(hs, k) == hs[i].value
  {
    if i > 0 {
      HeaderValueFirst(hs[1..], k, i - 1);
    }
  }

  /** No header with the key: empty string. */
  lemma {:induction false} HeaderValueAbsent(hs: seq<Header>, k: string)
    requires forall j :: 0 <= j < |hs| ==> hs[j].key != k
    ensures HeaderValue(hs, k) == ""
  {
    if hs != [] {
      HeaderValueAbsent(hs[1..], k);
    }
  }

  /** `StompFrame::getHeaderValue`: a linear scan that stops at the first
      header with the key. */
  method GetHeaderValue(f: Frame, k: string) returns (v: string)
    ensures v == HeaderValue(f.headers, k)
  {
    for i := 0 to |f.headers|
      invariant forall j :: 0 <= j < i ==> f.headers[j].key != k
    {
      if f.headers[i].key == k {
        HeaderValueFirst(f.headers, k, i);
        return f.headers[i].value;
      }
    }
    HeaderValueAbsent(f.headers, k);
    return "";
  }
}
