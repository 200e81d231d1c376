/** HTTP requests: printing them, and parsing them from a stream that arrives in pieces. */
module Http {
  import opened Text
  import B = Buffer

  datatype Method = Invalid | Get | Post | Head | Put | Delete
  datatype Version = Unknown | Http10 | Http11
  datatype ParseState = ExpectRequestLine | ExpectHeaders | ExpectBody | GotAll

  /** A request without its receive time and server address. */
  datatype Request = Request(verb: Method, version: Version, path: string, query: string, headers: map<string, string>)

  const NEW_REQUEST := Request(Invalid, Unknown, "", "", map[])
  const URI_SIZE := 256

  function MethodOf(s: string): Method {
    if s == "GET" then Get
    else if s == "POST" then Post
    else if s == "HEAD" then Head
    else if s == "PUT" then Put
    else if s == "DELETE" then Delete
    else Invalid
  }

  function MethodString(m: Method): string {
    match m
    case Get => "GET"
    case Post => "POST"
    case Head => "HEAD"
    case Put => "PUT"
    case Delete => "DELETE"
    case Invalid => "UNKNOWN"
  }

  // ---------- parsing ----------

  /** The header that a line with a colon adds. */
  function WithHeader(req: Request, line: string, colon: nat): Request
    requires colon < |line|
  {
    req.(headers := req.headers[line[..colon] := TrimRight(TrimLeft(line[colon + 1..]))])
  }

  function WithTarget(req: Request, target: string): Request {
    var question := Find(target, '?');
    if question < |target| then req.(path := target[..question], query := target[question..])
    else req.(path := target)
  }

  function VersionOf(s: string): Version {
    if s == "HTTP/1.1" then Http11 else if s == "HTTP/1.0" then Http10 else Unknown
  }

  /** A request line: whether it is good, and the request with what was taken from it. */
  function WithLine(req: Request, line: string): (bool, Request) {
    var space := Find(line, ' ');
    if space == |line| then (false, req)
    else
      var named := req.(verb := MethodOf(line[..space]));
      if named.verb == Invalid then (false, named) else
      var rest := line[space + 1..];
      var end := Find(rest, ' ');
      if end == |rest| then (false, named)
      else
        var aimed := WithTarget(named, rest[..end]);
        var version := VersionOf(rest[end + 1..]);
        if version == Unknown then (false, aimed) else (true, aimed.(version := version))
  }

  datatype Outcome = Outcome(ok: bool, state: ParseState, req: Request, rest: string)

  predicate Parsing(state: ParseState) { state == ExpectRequestLine || state == ExpectHeaders }

  /** One line: parsing stops, or goes on with the headers. */
  datatype Progress = Stop(outcome: Outcome) | More(req: Request, rest: string)

  function ParseLine(state: ParseState, req: Request, bytes: string): (p: Progress)
    requires Parsing(state)
    ensures p.More? ==> |p.rest| < |bytes|
  {
    var end := B.FindCRLF(bytes);
    if end < 0 then Stop(Outcome(true, state, req, bytes))
    else
      var line, rest := bytes[..end], bytes[end + 2..];
      if state == ExpectRequestLine then
        var (ok, next) := WithLine(req, line);
        if ok then More(next, rest) else Stop(Outcome(false, state, next, bytes))
      else if Find(line, ':') < |line| then More(WithHeader(req, line, Find(line, ':')), rest)
      else Stop(Outcome(true, GotAll, req, rest))
  }

  /** What parsing makes of the bytes there are; the outcome's rest is what it leaves in the buffer. */
  function Parse(state: ParseState, req: Request, bytes: string): Outcome
    requires Parsing(state)
    decreases |bytes|
  {
    match ParseLine(state, req, bytes)
    case Stop(o) => o
    case More(next, rest) => Parse(ExpectHeaders, next, rest)
  }

  /** Some complete line has no colon. */
  predicate HasColonless(bytes: string)
    decreases |bytes|
  {
    var end := B.FindCRLF(bytes);
    end >= 0 && (':' !in bytes[..end] || HasColonless(bytes[end + 2..]))
  }

  /** The headers end exactly at the first line without a colon, whatever else it says. */
  lemma {:induction false} HeadersEnd(req: Request, bytes: string)
    ensures Parse(ExpectHeaders, req, bytes).state == GotAll <==> HasColonless(bytes)
    decreases |bytes|
  {
    hide WithHeader, WithLine, B.FindCRLF;
    match ParseLine(ExpectHeaders, req, bytes)
    case More(next, rest) => HeadersEnd(next, rest);
    case Stop(_) =>
  }

  /** A line that is not empty is enough. */
  lemma NotOnlyEmptyLines(req: Request)
    ensures Parse(ExpectHeaders, req, "abc" + CRLF) == Outcome(true, GotAll, req, "")
  {
    var s := "abc" + CRLF;
    assert B.CrlfAt(s, 3) && s[..3] == "abc" && s[5..] == "";
    assert B.FindCRLF(s) == 3;
  }

  /** A target is cut at its first question mark, which stays with the query. */
  lemma QueryKept(req: Request, target: string)
    ensures
      var r := WithTarget(req, target);
      if '?' in target then r.path + r.query == target && '?' !in r.path && r.query != "" && r.query[0] == '?'
      else r.path == target && r.query == req.query
  {
  }

  // ---------- any fragmentation gives the same ----------

  /** Going on with b after what parsing a came to. */
  function Resume(o: Outcome, b: string): Outcome {
    if o.ok && Parsing(o.state) then Parse(o.state, o.req, o.rest + b) else o.(rest := o.rest + b)
  }

  /** More bytes do not change what a line that was complete did. */
  lemma ParseLineMore(state: ParseState, req: Request, a: string, b: string)
    requires Parsing(state)
    ensures
      match ParseLine(state, req, a)
      case More(next, rest) => ParseLine(state, req, a + b) == More(next, rest + b)
      case Stop(o) =>
        if o.ok && Parsing(o.state) then o == Outcome(true, state, req, a)
        else ParseLine(state, req, a + b) == Stop(o.(rest := o.rest + b))
  {
    hide WithLine, WithHeader, Find, B.FindCRLF;
    var end := B.FindCRLF(a);
    if end >= 0 {
      B.FindCRLFMore(a, b);
      assert (a + b)[..end] == a[..end] && (a + b)[end + 2..] == a[end + 2..] + b;
    }
  }

  lemma {:induction false} ParseInTwo(state: ParseState, req: Request, a: string, b: string)
    requires Parsing(state)
    ensures Parse(state, req, a + b) == Resume(Parse(state, req, a), b)
    decreases |a|
  {
    hide ParseLine;
    ParseLineMore(state, req, a, b);
    match ParseLine(state, req, a)
    case More(next, rest) => ParseInTwo(ExpectHeaders, next, rest, b);
    case Stop(_) =>
  }

  function ResumeAll(o: Outcome, pieces: seq<string>): Outcome
    decreases |pieces|
  {
    if pieces == [] then o else ResumeAll(Resume(o, pieces[0]), pieces[1..])
  }

  lemma {:induction false} ResumeAllIs(o: Outcome, pieces: seq<string>)
    requires pieces != []
    ensures ResumeAll(o, pieces) == Resume(o, Concat(pieces))
    decreases |pieces|
  {
    hide Parse;
    if |pieces| == 1 {
      assert Concat(pieces) == pieces[0] + "" == pieces[0];
    } else {
      ResumeAllIs(Resume(o, pieces[0]), pieces[1..]);
      var (first, later) := (o.rest + pieces[0], Concat(pieces[1..]));
      assert first + later == o.rest + (pieces[0] + later);
      if o.ok && Parsing(o.state) { ParseInTwo(o.state, o.req, first, later); }
    }
  }

  /** Bytes fed in any pieces give the state, the request and the left-over bytes that they give at once. */
  lemma AnyFragmentation(state: ParseState, req: Request, first: string, pieces: seq<string>)
    requires Parsing(state)
    ensures ResumeAll(Parse(state, req, first), pieces) == Parse(state, req, first + Concat(pieces))
  {
    ParseInTwo(state, req, first, Concat(pieces));
    if pieces != [] {
      ResumeAllIs(Parse(state, req, first), pieces);
    } else {
      assert first + "" == first;
    }
  }

  // ---------- printing ----------

  function HeaderLine(name: string, value: string): string { name + ": " + value }

  function HeaderText(keys: seq<string>, headers: map<string, string>): string
    requires forall k <- keys :: k in headers
  {
    if keys == [] then CRLF
    else HeaderLine(keys[0], headers[keys[0]]) + CRLF + HeaderText(keys[1..], headers)
  }

  /** What snprintf leaves of a text in a block of URI_SIZE bytes. */
  function Cut(s: string): string { if |s| < URI_SIZE then s else s[..URI_SIZE - 1] }

  function LineText(verb: Method, path: string): string {
    MethodString(verb) + " " + CString(path) + " HTTP/1.1"
  }

  /** keys lists the header names, each once. */
  ghost predicate Listing(keys: seq<string>, headers: map<string, string>) {
    (forall k :: k in keys <==> k in headers) && forall i, j :: 0 <= i < j < |keys| ==> keys[i] != keys[j]
  }

  function Printed(req: Request, keys: seq<string>): string
    requires forall k <- keys :: k in req.headers
  {
    Cut(LineText(req.verb, req.path)) + CRLF + HeaderText(keys, req.headers)
  }

  // ---------- exactly the requests that survive printing and parsing ----------

  ghost predicate HasCRLF(s: string) { exists k :: B.CrlfAt(s, k) }

  ghost predicate GoodPath(path: string) { ' ' !in path && '?' !in path && !HasCRLF(path) }

  ghost predicate GoodHeader(name: string, value: string) {
    ':' !in name && !HasCRLF(name) && !HasCRLF(value) && IsTrimmed(value)
  }

  ghost predicate GoodHeaders(headers: map<string, string>) { forall k <- headers :: GoodHeader(k, headers[k]) }

  ghost predicate Printable(req: Request) {
    && req.verb != Invalid && GoodPath(req.path) && '\0' !in req.path
    && |LineText(req.verb, req.path)| < URI_SIZE
    && GoodHeaders(req.headers)
  }

  /** A CRLF of a + b lies in a or in b, unless it straddles. */
  lemma CRLFInEither(a: string, b: string, k: int)
    requires B.CrlfAt(a + b, k) && (a == "" || b == "" || a[|a| - 1] != '\r' || b[0] != '\n')
    ensures B.CrlfAt(a, k) || B.CrlfAt(b, k - |a|)
  {
  }

  lemma NoCRLFTogether(a: string, b: string)
    requires !HasCRLF(a) && !HasCRLF(b) && (a == "" || b == "" || a[|a| - 1] != '\r' || b[0] != '\n')
    ensures !HasCRLF(a + b)
  {
    forall k
      ensures !B.CrlfAt(a + b, k)
    {
      if B.CrlfAt(a + b, k) { CRLFInEither(a, b, k); }
    }
  }

  /** A line without a CRLF ends at the first CRLF of line + CRLF + rest. */
  lemma FirstLine(line: string, rest: string)
    requires !HasCRLF(line)
    ensures B.FindCRLF(line + CRLF + rest) == |line| && |line + CRLF + rest| == |line| + 2 + |rest|
    ensures (line + CRLF + rest)[..|line|] == line && (line + CRLF + rest)[|line| + 2..] == rest
  {
    var s := line + CRLF + rest;
    assert s == line + (CRLF + rest) && B.CrlfAt(s, |line|);
    CRLFInEither(line, CRLF + rest, B.FindCRLF(s));
  }

  lemma TrimBack(value: string)
    requires IsTrimmed(value)
    ensures TrimRight(TrimLeft(" " + value)) == value
  {
    assert (" " + value)[1..] == value;
    assert TrimLeft(" " + value) == TrimLeft(value) == value;
  }

  lemma HeaderLineNoCRLF(name: string, value: string)
    requires !HasCRLF(name) && !HasCRLF(value)
    ensures !HasCRLF(HeaderLine(name, value))
  {
    assert !HasCRLF(": ");
    NoCRLFTogether(": ", value);
    NoCRLFTogether(name, ": " + value);
    assert HeaderLine(name, value) == name + (": " + value);
  }

  /** A header line gives back the header it was made from. */
  lemma HeaderBack(req: Request, name: string, value: string)
    requires GoodHeader(name, value)
    ensures
      var line := HeaderLine(name, value);
      !HasCRLF(line) && Find(line, ':') == |name| < |line|
      && WithHeader(req, line, |name|) == req.(headers := req.headers[name := value])
  {
    hide HasCRLF, Find, TrimLeft, TrimRight, IsTrimmed;
    var line := HeaderLine(name, value);
    FindIs(line, ':', |name|);
    HeaderLineNoCRLF(name, value);
    TrimBack(value);
    assert line[..|name|] == name && line[|name| + 1..] == " " + value;
  }

  /** The headers with those that keys list taken over from another map. */
  function Merge(into: map<string, string>, keys: seq<string>, headers: map<string, string>): map<string, string>
    requires forall k <- keys :: k in headers
    decreases |keys|
  {
    if keys == [] then into else Merge(into[keys[0] := headers[keys[0]]], keys[1..], headers)
  }

  lemma {:induction false} MergeIs(into: map<string, string>, keys: seq<string>, headers: map<string, string>)
    requires forall k <- keys :: k in headers
    ensures
      var m := Merge(into, keys, headers);
      forall k: string :: (k in m <==> k in into || k in keys) && (k in keys ==> m[k] == headers[k])
        && (k in into && k !in keys ==> m[k] == into[k])
    decreases |keys|
  {
    if keys != [] {
      MergeIs(into[keys[0] := headers[keys[0]]], keys[1..], headers);
    }
  }

  lemma MergeAll(keys: seq<string>, headers: map<string, string>)
    requires Listing(keys, headers)
    ensures Merge(map[], keys, headers) == headers
  {
    MergeIs(map[], keys, headers);
  }

  lemma EmptyLine(rest: string)
    ensures B.FindCRLF(CRLF + rest) == 0 && (CRLF + rest)[..0] == "" && (CRLF + rest)[2..] == rest
  {
    FirstLine("", rest);
    assert "" + CRLF + rest == CRLF + rest;
  }

  lemma HeaderLineParsed(req: Request, name: string, value: string, rest: string)
    requires GoodHeader(name, value)
    ensures ParseLine(ExpectHeaders, req, HeaderLine(name, value) + CRLF + rest) ==
      More(req.(headers := req.headers[name := value]), rest)
  {
    hide GoodHeader, HeaderLine, WithHeader, Find, B.FindCRLF, HasCRLF;
    HeaderBack(req, name, value);
    FirstLine(HeaderLine(name, value), rest);
  }

  /** Printed headers are parsed to the same headers. */
  lemma {:induction false} HeadersBack(req: Request, keys: seq<string>, headers: map<string, string>)
    requires (forall k <- keys :: k in headers) && GoodHeaders(headers)
    ensures Parse(ExpectHeaders, req, HeaderText(keys, headers)) ==
      Outcome(true, GotAll, req.(headers := Merge(req.headers, keys, headers)), "")
    decreases |keys|
  {
    hide ParseLine, GoodHeader, HeaderLine;
    if keys == [] {
      ParseEmptyLine(req);
    } else {
      HeaderLineParsed(req, keys[0], headers[keys[0]], HeaderText(keys[1..], headers));
      HeadersBack(req.(headers := req.headers[keys[0] := headers[keys[0]]]), keys[1..], headers);
    }
  }

  lemma ParseEmptyLine(req: Request)
    ensures ParseLine(ExpectHeaders, req, CRLF) == Stop(Outcome(true, GotAll, req, ""))
  {
    EmptyLine("");
    assert CRLF + "" == CRLF;
  }

  // ---------- the request line ----------

  lemma VerbBack(m: Method)
    requires m != Invalid
    ensures MethodOf(MethodString(m)) == m && ' ' !in MethodString(m) && !HasCRLF(MethodString(m))
      && |MethodString(m)| <= 6
  {
  }

  /** Where the spaces of a request line are. */
  lemma Fields(v: string, path: string, tail: string)
    requires ' ' !in v && ' ' !in path
    ensures
      var line := v + " " + path + " " + tail;
      && Find(line, ' ') == |v| < |line| && line[..|v|] == v && line[|v| + 1..] == path + " " + tail
      && Find(path + " " + tail, ' ') == |path| < |path + " " + tail|
      && (path + " " + tail)[..|path|] == path && (path + " " + tail)[|path| + 1..] == tail
  {
    FindIs(v + " " + path + " " + tail, ' ', |v|);
    FindIs(path + " " + tail, ' ', |path|);
    assert v + " " + path + " " + tail == v + " " + (path + " " + tail);
  }

  lemma GoodTarget(req: Request, path: string)
    requires '?' !in path
    ensures WithTarget(req, path) == req.(path := path)
  {
    FindIs(path, '?', |path|);
  }

  lemma WithGoodLine(req: Request, line: string, v: string, path: string)
    requires Find(line, ' ') == |v| < |line| && line[..|v|] == v && MethodOf(v) != Invalid
    requires
      var rest := line[|v| + 1..];
      Find(rest, ' ') == |path| < |rest| && rest[..|path|] == path && rest[|path| + 1..] == "HTTP/1.1"
    requires WithTarget(req.(verb := MethodOf(v)), path) == req.(verb := MethodOf(v), path := path)
    ensures WithLine(req, line) == (true, req.(verb := MethodOf(v), path := path, version := Http11))
  {
    hide Find, MethodOf, WithTarget;
  }

  lemma GoodPathIs(path: string)
    requires GoodPath(path)
    ensures ' ' !in path && '?' !in path && !HasCRLF(path) && !HasCRLF("HTTP/1.1")
  {
  }

  // ---------- exactly the request lines that are good ----------

  /** The names of the methods, and those of the versions. */
  predicate Names(v: string, m: Method) {
    || (v == "GET" && m == Get) || (v == "POST" && m == Post) || (v == "HEAD" && m == Head)
    || (v == "PUT" && m == Put) || (v == "DELETE" && m == Delete)
  }

  predicate NamesVersion(s: string, v: Version) {
    (s == "HTTP/1.1" && v == Http11) || (s == "HTTP/1.0" && v == Http10)
  }

  /** A method, a target without a space and a version, with a space between each two. */
  ghost predicate GoodLine(line: string, v: string, target: string, version: string) {
    && line == v + " " + target + " " + version && ' ' !in target
    && (v == "GET" || v == "POST" || v == "HEAD" || v == "PUT" || v == "DELETE")
    && (version == "HTTP/1.1" || version == "HTTP/1.0")
  }

  /** A good line gives the method and the version that it names, and its target in path and query. */
  lemma LineMeans(req: Request, line: string, v: string, target: string, version: string)
    requires GoodLine(line, v, target, version)
    ensures
      var (ok, r) := WithLine(req, line);
      && ok && Names(v, r.verb) && NamesVersion(version, r.version) && r.headers == req.headers
      && if '?' in target then r.path + r.query == target && '?' !in r.path && r.query != "" && r.query[0] == '?'
         else r.path == target && r.query == req.query
  {
    NamesKnown(v, version);
    Fields(v, target, version);
    LineParts(req, line, v, target, version);
    hide WithLine, Find, WithTarget, MethodOf, VersionOf;
    QueryKept(req.(verb := MethodOf(v)), target);
    TargetKeeps(req.(verb := MethodOf(v)), target);
  }

  lemma NamesKnown(v: string, version: string)
    requires v == "GET" || v == "POST" || v == "HEAD" || v == "PUT" || v == "DELETE"
    requires version == "HTTP/1.1" || version == "HTTP/1.0"
    ensures ' ' !in v && MethodOf(v) != Invalid && Names(v, MethodOf(v))
    ensures VersionOf(version) != Unknown && NamesVersion(version, VersionOf(version))
  {
  }

  lemma LineParts(req: Request, line: string, v: string, target: string, version: string)
    requires Find(line, ' ') == |v| < |line| && line[..|v|] == v && MethodOf(v) != Invalid
    requires VersionOf(version) != Unknown
    requires
      var rest := line[|v| + 1..];
      Find(rest, ' ') == |target| < |rest| && rest[..|target|] == target && rest[|target| + 1..] == version
    ensures WithLine(req, line) ==
      (true, WithTarget(req.(verb := MethodOf(v)), target).(version := VersionOf(version)))
  {
    hide Find, MethodOf, WithTarget, VersionOf;
  }

  lemma TargetKeeps(req: Request, target: string)
    ensures
      var r := WithTarget(req, target);
      r.verb == req.verb && r.version == req.version && r.headers == req.headers
  {
  }

  lemma FirstSpace(s: string)
    requires Find(s, ' ') < |s|
    ensures s == s[..Find(s, ' ')] + " " + s[Find(s, ' ') + 1..] && ' ' !in s[..Find(s, ' ')]
  {
    hide Find;
    SplitAt(s, Find(s, ' '));
  }

  lemma SplitAt(s: string, i: nat)
    requires i < |s| && s[i] == ' ' && forall k :: 0 <= k < i ==> s[k] != ' '
    ensures s == s[..i] + " " + s[i + 1..] && ' ' !in s[..i]
  {
  }

  lemma GoodParts(req: Request, line: string)
    requires WithLine(req, line).0
    ensures Find(line, ' ') < |line| && MethodOf(line[..Find(line, ' ')]) != Invalid
    ensures
      var rest := line[Find(line, ' ') + 1..];
      Find(rest, ' ') < |rest| && VersionOf(rest[Find(rest, ' ') + 1..]) != Unknown
  {
    hide Find, WithTarget, MethodOf, VersionOf;
  }

  lemma KnownNames(v: string, version: string)
    requires MethodOf(v) != Invalid && VersionOf(version) != Unknown
    ensures v == "GET" || v == "POST" || v == "HEAD" || v == "PUT" || v == "DELETE"
    ensures version == "HTTP/1.1" || version == "HTTP/1.0"
  {
  }

  lemma GoodLineMade(req: Request, line: string) returns (v: string, target: string, version: string)
    requires WithLine(req, line).0
    ensures GoodLine(line, v, target, version)
  {
    GoodParts(req, line);
    hide WithLine, Find, MethodOf, VersionOf;
    var rest := line[Find(line, ' ') + 1..];
    FirstSpace(line);
    FirstSpace(rest);
    v, target, version := line[..Find(line, ' ')], rest[..Find(rest, ' ')], rest[Find(rest, ' ') + 1..];
    KnownNames(v, version);
    Together(v, target, version);
  }

  lemma Together(v: string, target: string, version: string)
    ensures v + " " + (target + " " + version) == v + " " + target + " " + version
  {
  }

  /** A request line is good if and only if it is made so. */
  lemma LineGoodIff(req: Request, line: string)
    ensures WithLine(req, line).0 <==> exists v, target, version :: GoodLine(line, v, target, version)
  {
    hide WithLine, GoodLine;
    if WithLine(req, line).0 {
      var v, target, version := GoodLineMade(req, line);
    }
    if v, target, version :| GoodLine(line, v, target, version) {
      LineMeans(req, line, v, target, version);
    }
  }

  /** Parsing from the start fails if and only if there is a first line and it is not good; it then takes nothing. */
  lemma FailsIff(bytes: string)
    ensures
      var (o, end) := (Parse(ExpectRequestLine, NEW_REQUEST, bytes), B.FindCRLF(bytes));
      && (!o.ok <==> end >= 0 && !WithLine(NEW_REQUEST, bytes[..end]).0)
      && (!o.ok ==> o.state == ExpectRequestLine && o.rest == bytes)
  {
    hide WithLine, WithHeader, B.FindCRLF, Find;
    var end := B.FindCRLF(bytes);
    if end >= 0 && WithLine(NEW_REQUEST, bytes[..end]).0 {
      HeadersNeverFail(WithLine(NEW_REQUEST, bytes[..end]).1, bytes[end + 2..]);
    }
  }

  lemma {:induction false} HeadersNeverFail(req: Request, bytes: string)
    ensures Parse(ExpectHeaders, req, bytes).ok
    decreases |bytes|
  {
    hide WithLine, WithHeader, B.FindCRLF, Find;
    match ParseLine(ExpectHeaders, req, bytes)
    case More(next, rest) => HeadersNeverFail(next, rest);
    case Stop(_) =>
  }

  /** A header field is what is before the first colon; its value is the rest without the white space around it. */
  lemma HeaderMeans(req: Request, line: string, name: string, rest: string)
    requires line == name + ":" + rest && ':' !in name
    ensures Find(line, ':') == |name| < |line|
    ensures
      var r := WithHeader(req, line, Find(line, ':'));
      && name in r.headers && r == req.(headers := req.headers[name := r.headers[name]])
      && IsTrimmed(r.headers[name])
      && exists a, b :: AllSpace(a) && AllSpace(b) && rest == a + r.headers[name] + b
  {
    FindIs(line, ':', |name|);
    assert line[..|name|] == name && line[|name| + 1..] == rest;
    hide Find, IsTrimmed, TrimLeft, TrimRight;
    TrimIs(rest);
    TrimmedIsInside(rest);
  }

  lemma TrimmedIsInside(s: string)
    ensures exists a, b :: AllSpace(a) && AllSpace(b) && s == a + TrimRight(TrimLeft(s)) + b
  {
    var left := TrimLeft(s);
    var value := TrimRight(left);
    LeftSpace(s);
    RightSpace(left);
    hide TrimLeft, TrimRight, AllSpace;
    assert s == s[..|s| - |left|] + value + left[|value|..];
  }

  /** The request line is cut after 255 characters. */
  lemma CutIs(s: string)
    ensures Cut(s) == if |s| <= 255 then s else s[..255]
  {
  }

  /** A request as it is printed. */
  lemma PrintedExample()
    ensures
      Printed(Request(Post, Http10, "/a", "?b", map["Host" := "c", "Accept" := "d"]), ["Accept", "Host"]) ==
      "POST /a HTTP/1.1\r\nAccept: d\r\nHost: c\r\n\r\n"
  {
    LineExample();
    HeadersExample();
    ExampleTogether();
    hide HeaderText, LineText, Cut;
  }

  lemma LineExample()
    ensures Cut(LineText(Post, "/a")) == "POST /a HTTP/1.1"
  {
    FindIs("/a", '\0', 2);
    assert CString("/a") == "/a";
    hide CString;
    assert LineText(Post, "/a") == "POST /a HTTP/1.1";
  }

  lemma ExampleTogether()
    ensures "POST /a HTTP/1.1" + CRLF + "Accept: d\r\nHost: c\r\n\r\n" ==
      "POST /a HTTP/1.1\r\nAccept: d\r\nHost: c\r\n\r\n"
  {
  }

  lemma HeadersExample()
    ensures HeaderText(["Accept", "Host"], map["Host" := "c", "Accept" := "d"]) == "Accept: d\r\nHost: c\r\n\r\n"
  {
    var headers := map["Host" := "c", "Accept" := "d"];
    assert ["Accept", "Host"][1..] == ["Host"] && ["Host"][1..] == [];
    assert HeaderText(["Host"], headers) == HeaderLine("Host", "c") + CRLF + HeaderText([], headers);
  }

  /** A request line of a verb, a path and a version is taken apart again. */
  lemma LineBack(req: Request, verb: Method, path: string)
    requires verb != Invalid && GoodPath(path)
    ensures
      var line := MethodString(verb) + " " + path + " " + "HTTP/1.1";
      !HasCRLF(line) && WithLine(req, line) == (true, req.(verb := verb, path := path, version := Http11))
  {
    hide *;
    VerbBack(verb);
    GoodPathIs(path);
    var v := MethodString(verb);
    Fields(v, path, "HTTP/1.1");
    GoodTarget(req.(verb := verb), path);
    WithGoodLine(req, v + " " + path + " " + "HTTP/1.1", v, path);
    LineNoCRLF(v, path, "HTTP/1.1");
  }

  lemma LineNoCRLF(v: string, path: string, tail: string)
    requires !HasCRLF(v) && !HasCRLF(path) && !HasCRLF(tail)
    ensures !HasCRLF(v + " " + path + " " + tail)
  {
    assert !HasCRLF(" ");
    NoCRLFTogether(v, " ");
    NoCRLFTogether(v + " ", path);
    NoCRLFTogether(v + " " + path, " ");
    NoCRLFTogether(v + " " + path + " ", tail);
  }

  ghost predicate RoundTrips(req: Request, keys: seq<string>)
    requires forall k <- keys :: k in req.headers
  {
    var o := Parse(ExpectRequestLine, NEW_REQUEST, Printed(req, keys));
    o.ok && o.state == GotAll && o.req.verb == req.verb && o.req.path == req.path && o.req.headers == req.headers
  }

  /** Parsing what was printed gives back a printable request, whole and as version 1.1. */
  lemma PrintThenParse(req: Request, keys: seq<string>)
    requires Listing(keys, req.headers) && Printable(req)
    ensures Parse(ExpectRequestLine, NEW_REQUEST, Printed(req, keys)) ==
      Outcome(true, GotAll, Request(req.verb, Http11, req.path, "", req.headers), "")
  {
    hide *;
    PrintedLine(req, keys);
    var line := LineText(req.verb, req.path);
    LineBack(NEW_REQUEST, req.verb, req.path);
    FirstLine(line, HeaderText(keys, req.headers));
    HeadersBack(WithLine(NEW_REQUEST, line).1, keys, req.headers);
    MergeAll(keys, req.headers);
    RequestLineParsed(Printed(req, keys));
  }

  lemma PrintedLine(req: Request, keys: seq<string>)
    requires Listing(keys, req.headers) && Printable(req)
    ensures (forall k <- keys :: k in req.headers) && req.verb != Invalid
      && GoodPath(req.path) && GoodHeaders(req.headers)
    ensures NEW_REQUEST.query == "" && NEW_REQUEST.headers == map[]
    ensures LineText(req.verb, req.path) == MethodString(req.verb) + " " + req.path + " " + "HTTP/1.1"
    ensures Printed(req, keys) == LineText(req.verb, req.path) + CRLF + HeaderText(keys, req.headers)
  {
    FindIs(req.path, '\0', |req.path|);
    assert " HTTP/1.1" == " " + "HTTP/1.1";
  }

  lemma RequestLineParsed(bytes: string)
    requires B.FindCRLF(bytes) >= 0
    requires B.FindCRLF(bytes) + 2 <= |bytes| && WithLine(NEW_REQUEST, bytes[..B.FindCRLF(bytes)]).0
    ensures Parsing(ExpectRequestLine) && Parsing(ExpectHeaders)
    ensures Parse(ExpectRequestLine, NEW_REQUEST, bytes) ==
      Parse(ExpectHeaders, WithLine(NEW_REQUEST, bytes[..B.FindCRLF(bytes)]).1, bytes[B.FindCRLF(bytes) + 2..])
  {
    hide WithHeader, WithLine, Find, B.FindCRLF;
    var p := ParseLine(ExpectRequestLine, NEW_REQUEST, bytes);
    assert p.More?;
  }

  // ---------- and no other request does ----------

  lemma PartNoCRLF(s: string, i: nat, j: nat)
    requires !HasCRLF(s) && i <= j <= |s|
    ensures !HasCRLF(s[i..j])
  {
    forall k
      ensures !B.CrlfAt(s[i..j], k)
    {
      assert B.CrlfAt(s[i..j], k) ==> B.CrlfAt(s, i + k);
    }
  }

  lemma FrontNoCRLF(s: string, j: nat)
    requires !HasCRLF(s) && j <= |s|
    ensures !HasCRLF(s[..j])
  {
    PartNoCRLF(s, 0, j);
    assert s[0..j] == s[..j];
  }

  lemma BackNoCRLF(s: string, i: nat)
    requires !HasCRLF(s) && i <= |s|
    ensures !HasCRLF(s[i..])
  {
    PartNoCRLF(s, i, |s|);
    assert s[i..|s|] == s[i..];
  }

  lemma LineNoCRLFInside(bytes: string)
    requires B.FindCRLF(bytes) >= 0
    ensures B.FindCRLF(bytes) <= |bytes| && !HasCRLF(bytes[..B.FindCRLF(bytes)])
  {
    forall k
      ensures !B.CrlfAt(bytes[..B.FindCRLF(bytes)], k)
    {
      assert B.CrlfAt(bytes[..B.FindCRLF(bytes)], k) ==> B.CrlfAt(bytes, k);
    }
  }

  lemma TrimmedNoCRLF(s: string)
    requires !HasCRLF(s)
    ensures !HasCRLF(TrimRight(TrimLeft(s)))
  {
    hide HasCRLF, TrimLeft, TrimRight;
    var left := TrimLeft(s);
    BackNoCRLF(s, |s| - |left|);
    FrontNoCRLF(left, |TrimRight(left)|);
  }

  lemma ParsedHeaderGood(req: Request, line: string)
    requires !HasCRLF(line) && Find(line, ':') < |line| && GoodHeaders(req.headers)
    ensures
      var next := WithHeader(req, line, Find(line, ':'));
      GoodHeaders(next.headers) && next.path == req.path && next.verb == req.verb
  {
    hide GoodHeader, HasCRLF, TrimLeft, TrimRight, IsTrimmed, Find;
    var colon := Find(line, ':');
    ParsedFieldGood(line, colon);
  }

  lemma ParsedFieldGood(line: string, colon: nat)
    requires !HasCRLF(line) && colon < |line| && forall k :: 0 <= k < colon ==> line[k] != ':'
    ensures GoodHeader(line[..colon], TrimRight(TrimLeft(line[colon + 1..])))
  {
    hide HasCRLF, TrimLeft, TrimRight, IsTrimmed;
    FrontNoCRLF(line, colon);
    BackNoCRLF(line, colon + 1);
    TrimmedNoCRLF(line[colon + 1..]);
    TrimIs(line[colon + 1..]);
  }

  lemma ParsedTargetGood(req: Request, target: string)
    requires !HasCRLF(target) && ' ' !in target
    ensures GoodPath(WithTarget(req, target).path)
    ensures WithTarget(req, target).verb == req.verb && WithTarget(req, target).headers == req.headers
  {
    FrontNoCRLF(target, Find(target, '?'));
  }

  lemma ParsedLineGood(req: Request, line: string)
    requires !HasCRLF(line) && WithLine(req, line).0
    ensures GoodPath(WithLine(req, line).1.path) && WithLine(req, line).1.verb != Invalid
    ensures WithLine(req, line).1.headers == req.headers
  {
    hide HasCRLF, WithTarget, GoodPath, MethodOf, VersionOf;
    var space := Find(line, ' ');
    BackNoCRLF(line, space + 1);
    var rest := line[space + 1..];
    var end := Find(rest, ' ');
    FrontNoCRLF(rest, end);
    ParsedTargetGood(req.(verb := MethodOf(line[..space])), rest[..end]);
  }

  /** Whatever is parsed completely has a good path and good headers. */
  lemma {:induction false} HeadersParsedGood(req: Request, bytes: string)
    requires GoodHeaders(req.headers)
    ensures
      var o := Parse(ExpectHeaders, req, bytes);
      GoodHeaders(o.req.headers) && o.req.path == req.path && o.req.verb == req.verb
    decreases |bytes|
  {
    hide GoodHeaders, ParseLine;
    HeaderLineParsedGood(req, bytes);
    match ParseLine(ExpectHeaders, req, bytes)
    case More(next, rest) => HeadersParsedGood(next, rest);
    case Stop(_) =>
  }

  lemma HeaderLineParsedGood(req: Request, bytes: string)
    requires GoodHeaders(req.headers)
    ensures
      match ParseLine(ExpectHeaders, req, bytes)
      case More(next, _) => GoodHeaders(next.headers) && next.path == req.path && next.verb == req.verb
      case Stop(o) => o.req == req
  {
    hide GoodHeaders, HasCRLF, WithHeader, Find, B.FindCRLF;
    var end := B.FindCRLF(bytes);
    if end >= 0 {
      LineNoCRLFInside(bytes);
      if Find(bytes[..end], ':') < end {
        ParsedHeaderGood(req, bytes[..end]);
      }
    }
  }

  lemma ParsedGood(bytes: string)
    ensures
      var o := Parse(ExpectRequestLine, NEW_REQUEST, bytes);
      o.ok && o.state == GotAll ==> GoodHeaders(o.req.headers) && GoodPath(o.req.path) && o.req.verb != Invalid
  {
    hide GoodHeaders, HasCRLF, GoodPath, WithLine, Parse, B.FindCRLF;
    SplitOff(bytes);
    var o, end := Parse(ExpectRequestLine, NEW_REQUEST, bytes), B.FindCRLF(bytes);
    if o.ok && o.state == GotAll {
      LineNoCRLFInside(bytes);
      ParsedLineGood(NEW_REQUEST, bytes[..end]);
      NothingYet();
      HeadersParsedGood(WithLine(NEW_REQUEST, bytes[..end]).1, bytes[end + 2..]);
    }
  }

  lemma CStringIs(s: string)
    ensures |CString(s)| <= |s| && CString(s) == s[..|CString(s)|] && (CString(s) == s <==> '\0' !in s)
  {
    if CString(s) == s {
      assert forall k :: 0 <= k < |s| ==> s[k] != '\0';
    } else {
      assert s[Find(s, '\0')] == '\0';
    }
  }

  /** A request line cut short is bad. */
  lemma CutLineBad(req: Request, v: string, path: string, n: nat)
    requires ' ' !in v && ' ' !in path && |v| < n < |v| + |path| + 10
    ensures !WithLine(req, (v + " " + path + " " + "HTTP/1.1")[..n]).0
  {
    var line := (v + " " + path + " " + "HTTP/1.1")[..n];
    FindIs(line, ' ', |v|);
    var rest := line[|v| + 1..];
    if n <= |v| + 1 + |path| {
      FindIs(rest, ' ', |rest|);
    } else {
      FindIs(rest, ' ', |path|);
    }
  }

  lemma GoodPrefix(path: string)
    requires GoodPath(path)
    ensures GoodPath(CString(path))
  {
    CStringIs(path);
    FrontNoCRLF(path, |CString(path)|);
  }

  /** What a printed request line is parsed to: the path up to a NUL, if nothing was cut off. */
  lemma PrintedLineParsed(verb: Method, path: string)
    requires verb != Invalid && GoodPath(path)
    ensures
      var line := Cut(LineText(verb, path));
      && !HasCRLF(line)
      && (WithLine(NEW_REQUEST, line).0 ==>
            |LineText(verb, path)| < URI_SIZE && WithLine(NEW_REQUEST, line).1.path == CString(path))
  {
    hide *;
    GoodPrefix(path);
    VerbBack(verb);
    GoodPathIs(CString(path));
    LineBack(NEW_REQUEST, verb, CString(path));
    var whole := MethodString(verb) + " " + CString(path) + " " + "HTTP/1.1";
    WholeLine(verb, path);
    FrontNoCRLF(whole, |Cut(whole)|);
    if |whole| >= URI_SIZE {
      CutLineBad(NEW_REQUEST, MethodString(verb), CString(path), |Cut(whole)|);
    }
  }

  lemma WholeLine(verb: Method, path: string)
    ensures
      var whole := MethodString(verb) + " " + CString(path) + " " + "HTTP/1.1";
      && whole == LineText(verb, path)
      && |Cut(whole)| <= |whole| && Cut(whole) == whole[..|Cut(whole)|]
      && (if |whole| < URI_SIZE then Cut(whole) == whole else |MethodString(verb)| < |Cut(whole)| < |whole|)
  {
    hide CString;
    assert " HTTP/1.1" == " " + "HTTP/1.1";
  }

  lemma SplitOff(bytes: string)
    ensures
      var o := Parse(ExpectRequestLine, NEW_REQUEST, bytes);
      var end := B.FindCRLF(bytes);
      o.ok && o.state == GotAll ==>
        end >= 0 && end + 2 <= |bytes| && WithLine(NEW_REQUEST, bytes[..end]).0
        && o == Parse(ExpectHeaders, WithLine(NEW_REQUEST, bytes[..end]).1, bytes[end + 2..])
  {
    hide WithLine, B.FindCRLF;
    var p := ParseLine(ExpectRequestLine, NEW_REQUEST, bytes);
  }

  /** Exactly the printable requests come back from printing and parsing with their method, path
      and headers. */
  lemma RoundTripsIff(req: Request, keys: seq<string>)
    requires Listing(keys, req.headers)
    ensures RoundTrips(req, keys) <==> Printable(req)
  {
    if Printable(req) {
      PrintThenParse(req, keys);
    }
    if RoundTrips(req, keys) {
      OnlyPrintable(req, keys);
    }
  }

  lemma OnlyPrintable(req: Request, keys: seq<string>)
    requires Listing(keys, req.headers) && RoundTrips(req, keys)
    ensures Printable(req)
  {
    hide Parse, WithLine, GoodPath, GoodHeader, GoodHeaders, HasCRLF, HeaderText, LineText, Cut, CString, B.FindCRLF;
    var bytes := Printed(req, keys);
    ParsedGood(bytes);
    PrintedLineParsed(req.verb, req.path);
    FirstLine(Cut(LineText(req.verb, req.path)), HeaderText(keys, req.headers));
    SplitOff(bytes);
    ParsedLineGood(NEW_REQUEST, Cut(LineText(req.verb, req.path)));
    NothingYet();
    HeadersParsedGood(WithLine(NEW_REQUEST, bytes[..B.FindCRLF(bytes)]).1, bytes[B.FindCRLF(bytes) + 2..]);
    CStringIs(req.path);
  }

  lemma NothingYet()
    ensures GoodHeaders(NEW_REQUEST.headers)
  {
  }

  /** A NUL in the path is enough: the path is printed as a C string. */
  lemma NulInPath()
    ensures !RoundTrips(Request(Get, Http11, "/a\0b", "", map[]), [])
  {
    var req := Request(Get, Http11, "/a\0b", "", map[]);
    assert req.path[2] == '\0';
    RoundTripsIff(req, []);
  }

  // ---------- the order of std::map ----------

  predicate Before(a: string, b: string) {
    b != "" && (a == "" || a[0] < b[0] || (a[0] == b[0] && Before(a[1..], b[1..])))
  }

  lemma {:induction false} BeforeTotal(a: string, b: string)
    ensures a == b || Before(a, b) || Before(b, a)
  {
    if a != "" && b != "" && a[0] == b[0] {
      BeforeTotal(a[1..], b[1..]);
      assert a == [a[0]] + a[1..] && b == [b[0]] + b[1..];
    }
  }

  lemma {:induction false} BeforeTransitive(a: string, b: string, c: string)
    requires Before(a, b) && Before(b, c)
    ensures Before(a, c) && a != c
  {
    if a != "" && a[0] == b[0] && b[0] == c[0] {
      BeforeTransitive(a[1..], b[1..], c[1..]);
    }
  }

  predicate IsLeast(k: string, names: set<string>) { k in names && forall o <- names :: o == k || Before(k, o) }

  lemma {:induction false} LeastExists(names: set<string>)
    requires names != {}
    ensures exists k :: IsLeast(k, names)
  {
    var k :| k in names;
    var others := names - {k};
    assert forall o <- names :: o == k || o in others;
    if others == {} {
      assert IsLeast(k, names);
    } else {
      LeastExists(others);
      var m :| IsLeast(m, others);
      BeforeTotal(k, m);
      forall o | o in names && Before(k, m) ensures o == k || Before(k, o) {
        if o != k && o != m { BeforeTransitive(k, m, o); }
      }
      assert IsLeast(if Before(k, m) then k else m, names);
    }
  }

  lemma LeastIs(k: string, names: set<string>)
    requires IsLeast(k, names)
    ensures k in names && forall o <- names :: o == k || Before(k, o)
  {
  }

  ghost predicate Sorted(keys: seq<string>) { forall i, j :: 0 <= i < j < |keys| ==> Before(keys[i], keys[j]) }

  /** The order of the names is that of the dictionary: by the first characters that differ, or the shorter first. */
  lemma {:induction false} BeforeIs(a: string, b: string)
    ensures Before(a, b) <==>
      exists k :: 0 <= k <= |a| && k < |b| && a[..k] == b[..k] && (k == |a| || a[k] < b[k])
  {
    if a != "" && b != "" && a[0] == b[0] {
      BeforeIs(a[1..], b[1..]);
      var c, d := a[1..], b[1..];
      if k :| 0 <= k <= |c| && k < |d| && c[..k] == d[..k] && (k == |c| || c[k] < d[k]) {
        assert a[..k + 1] == [a[0]] + a[1..][..k] == b[..k + 1];
      }
      if k :| 0 <= k <= |a| && k < |b| && a[..k] == b[..k] && (k == |a| || a[k] < b[k]) {
        assert k > 0 && a[1..][..k - 1] == a[..k][1..] == b[..k][1..] == b[1..][..k - 1];
      }
    } else if a == "" && b != "" {
      assert a[..0] == b[..0];
    } else if b != "" {
      assert a[..0] == b[..0];
      assert forall k :: 0 < k <= |a| && k < |b| && a[..k] == b[..k] ==> a[..k][0] == b[..k][0];
    }
  }

  lemma BeforeNotSelf(a: string)
    ensures !Before(a, a)
  {
  }

  lemma SortedListing(keys: seq<string>, headers: map<string, string>)
    requires Sorted(keys) && forall k :: k in keys <==> k in headers
    ensures Listing(keys, headers)
  {
    forall i, j | 0 <= i < j < |keys| ensures keys[i] != keys[j] {
      BeforeNotSelf(keys[i]);
    }
  }

  /** Appending one header line after those of keys. */
  function HeaderLines(keys: seq<string>, headers: map<string, string>): string
    requires forall k <- keys :: k in headers
  {
    if keys == [] then ""
    else HeaderLines(keys[..|keys| - 1], headers) + HeaderLine(keys[|keys| - 1], headers[keys[|keys| - 1]]) + CRLF
  }

  lemma {:induction false} HeaderTextSplits(keys: seq<string>, more: seq<string>, headers: map<string, string>)
    requires forall k <- keys + more :: k in headers
    ensures forall k <- keys :: k in headers
    ensures forall k <- more :: k in headers
    ensures HeaderText(keys + more, headers) == HeaderLines(keys, headers) + HeaderText(more, headers)
    decreases |keys|
  {
    assert forall k <- keys :: k in keys + more;
    assert forall k <- more :: k in keys + more;
    if keys == [] {
      assert keys + more == more;
    } else {
      var last := keys[|keys| - 1];
      assert keys + more == keys[..|keys| - 1] + ([last] + more);
      HeaderTextSplits(keys[..|keys| - 1], [last] + more, headers);
      assert ([last] + more)[1..] == more;
    }
  }

  lemma NoHeaders(headers: map<string, string>)
    ensures HeaderText([], headers) == CRLF
  {
  }

  // ---------- the request ----------

  class HttpRequest {
    var verb: Method
    var version: Version
    var path: string
    var query: string
    var headers: map<string, string>

    function View(): Request
      reads this
    {
      Request(verb, version, path, query, headers)
    }

    constructor ()
      ensures View() == NEW_REQUEST
    {
      verb, version, path, query, headers := Invalid, Unknown, "", "", map[];
    }

    /** The source asserts that no method was set before. */
    method SetMethod(m: string) returns (good: bool)
      requires verb == Invalid
      modifies this`verb
      ensures View() == old(View()).(verb := MethodOf(m)) && good == (MethodOf(m) != Invalid)
    {
      verb := MethodOf(m);
      good := verb != Invalid;
    }

    /** The field, and the value without white space around it. */
    method AddHeader(line: string, colon: nat)
      requires colon < |line|
      modifies this`headers
      ensures View() == WithHeader(old(View()), line, colon)
    {
      hide TrimLeft, TrimRight;
      var field := line[..colon];
      var value := SkipSpaces(line[colon + 1..]);
      value := StripSpaces(value);
      headers := headers[field := value];
    }

    method SkipSpaces(s: string) returns (t: string)
      ensures t == TrimLeft(s)
    {
      var start := 0;
      while start < |s| && IsSpace(s[start])
        invariant start <= |s| && TrimLeft(s) == TrimLeft(s[start..])
      {
        assert s[start..][1..] == s[start + 1..];
        start := start + 1;
      }
      t := s[start..];
    }

    method StripSpaces(s: string) returns (value: string)
      ensures value == TrimRight(s)
    {
      value := s;
      while value != "" && IsSpace(value[|value| - 1])
        invariant TrimRight(value) == TrimRight(s)
        decreases |value|
      {
        value := value[..|value| - 1];
      }
    }

    method Swap(that: HttpRequest)
      modifies this, that
      ensures View() == old(that.View()) && that.View() == old(View())
    {
      verb, that.verb := that.verb, verb;
      version, that.version := that.version, version;
      path, that.path := that.path, path;
      query, that.query := that.query, query;
      headers, that.headers := that.headers, headers;
    }

    /** Appends the request line, each header in the order of the names, and an empty line. */
    method AppendToBuffer(output: B.Buffer) returns (ghost keys: seq<string>)
      requires output.Valid()
      modifies output
      ensures output.Valid() && Sorted(keys) && Listing(keys, headers)
      ensures output.Contents() == old(output.Contents()) + Printed(View(), keys)
    {
      hide HeaderText, HeaderLines, Sorted, Listing, LineText, Cut;
      var uri := Cut(LineText(verb, path));
      output.Append(uri);
      output.Append(CRLF);
      ghost var front := output.Contents();
      keys := AppendHeaders(output);
      output.Append(CRLF);
      HeaderTextSplits(keys, [], headers);
      SortedListing(keys, headers);
      NoHeaders(headers);
      assert keys + [] == keys;
      assert output.Contents() == front + HeaderText(keys, headers);
    }

    method AppendHeaders(output: B.Buffer) returns (ghost keys: seq<string>)
      requires output.Valid()
      modifies output
      ensures output.Valid() && Sorted(keys) && (forall k :: k in keys <==> k in headers)
      ensures output.Contents() == old(output.Contents()) + HeaderLines(keys, headers)
    {
      hide HeaderLine, HeaderLines, IsLeast, Before, Sorted;
      keys := [];
      NothingListed(headers);
      var todo := headers.Keys;
      while todo != {}
        invariant output.Valid() && todo <= headers.Keys && Sorted(keys)
        invariant forall k :: k in headers <==> k in todo || k in keys
        invariant forall k, o :: k in keys && o in todo ==> Before(k, o)
        invariant output.Contents() == old(output.Contents()) + HeaderLines(keys, headers)
        decreases |todo|
      {
        LeastExists(todo);
        var k :| IsLeast(k, todo);
        LeastIs(k, todo);
        output.Append(HeaderLine(k, headers[k]));
        output.Append(CRLF);
        OneMoreHeader(keys, k, headers);
        keys := keys + [k];
        todo := todo - {k};
      }
    }
  }

  lemma NothingListed(headers: map<string, string>)
    ensures Sorted([]) && HeaderLines([], headers) == ""
  {
  }

  lemma OneMoreHeader(keys: seq<string>, k: string, headers: map<string, string>)
    requires (forall o <- keys :: o in headers) && k in headers && Sorted(keys) && forall o <- keys :: Before(o, k)
    ensures Sorted(keys + [k])
      && HeaderLines(keys + [k], headers) == HeaderLines(keys, headers) + HeaderLine(k, headers[k]) + CRLF
  {
    assert (keys + [k])[..|keys|] == keys;
  }

  // ---------- the parser ----------

  class HttpContext {
    var state: ParseState
    const request: HttpRequest

    constructor ()
      ensures state == ExpectRequestLine && fresh(request) && request.View() == NEW_REQUEST
    {
      state := ExpectRequestLine;
      request := new HttpRequest();
    }

    method Reset()
      modifies this, request
      ensures state == ExpectRequestLine && request.View() == NEW_REQUEST
    {
      state := ExpectRequestLine;
      var dummy := new HttpRequest();
      request.Swap(dummy);
    }

    method ProcessRequestLine(line: string) returns (succeed: bool)
      requires request.verb == Invalid
      modifies request
      ensures (succeed, request.View()) == WithLine(old(request.View()), line)
    {
      hide Find, MethodOf;
      succeed := false;
      var space := Find(line, ' ');
      if space != |line| {
        var good := request.SetMethod(line[..space]);
        if good {
          var rest := line[space + 1..];
          var end := Find(rest, ' ');
          if end != |rest| {
            var target := rest[..end];
            var question := Find(target, '?');
            if question != |target| {
              request.path := target[..question];
              request.query := target[question..];
            } else {
              request.path := target;
            }
            var version := rest[end + 1..];
            succeed := |version| == 8 && version[..7] == "HTTP/1.";
            if succeed {
              assert version == "HTTP/1." + [version[7]];
              if version[7] == '1' {
                request.version := Http11;
              } else if version[7] == '0' {
                request.version := Http10;
              } else {
                succeed := false;
              }
            }
          }
        }
      }
    }

    /** Parsing may go on in this state: the method is set by a request line only once. */
    predicate Ready()
      reads this, request
    {
      Parsing(state) && (state == ExpectRequestLine ==> request.verb == Invalid)
    }

    function Now(ok: bool, buf: B.Buffer): Outcome
      requires buf.Valid()
      reads this, request, buf
    {
      Outcome(ok, state, request.View(), buf.Contents())
    }

    method ParseRequestLine(buf: B.Buffer) returns (ok: bool, hasMore: bool)
      requires buf.Valid() && Ready() && state == ExpectRequestLine
      modifies this, request, buf
      ensures buf.Valid()
      ensures hasMore ==> ok && |buf.Contents()| < old(|buf.Contents()|)
      ensures ok ==> Ready()
      ensures Parse(old(state), old(request.View()), old(buf.Contents())) ==
        if hasMore then Parse(state, request.View(), buf.Contents()) else Now(ok, buf)
    {
      hide WithLine, B.FindCRLF;
      ghost var p := ParseLine(state, request.View(), buf.Contents());
      ok := true;
      var end := B.FindCRLF(buf.Contents());
      if end >= 0 {
        ok := ProcessRequestLine(buf.Contents()[..end]);
        hasMore := ok;
        if ok {
          buf.Retrieve(end + 2);
          state := ExpectHeaders;
        }
      } else {
        hasMore := false;
      }
    }

    method ParseHeader(buf: B.Buffer) returns (hasMore: bool)
      requires buf.Valid() && Ready() && state == ExpectHeaders
      modifies this, request, buf
      ensures buf.Valid()
      ensures hasMore ==> |buf.Contents()| < old(|buf.Contents()|)
      ensures hasMore || state != GotAll ==> Ready()
      ensures Parse(old(state), old(request.View()), old(buf.Contents())) ==
        if hasMore then Parse(state, request.View(), buf.Contents()) else Now(true, buf)
    {
      hide WithHeader, Find, B.FindCRLF;
      ghost var p := ParseLine(state, request.View(), buf.Contents());
      hasMore := true;
      var end := B.FindCRLF(buf.Contents());
      if end >= 0 {
        var line := buf.Contents()[..end];
        var colon := Find(line, ':');
        if colon != |line| {
          request.AddHeader(line, colon);
        } else {
          state := GotAll;
          hasMore := false;
        }
        buf.Retrieve(end + 2);
      } else {
        hasMore := false;
      }
    }

    /** One call on the bytes that have arrived; it returns, comes to what Parse says, and can be
        called again unless it failed or got all. */
    method ParseRequest(buf: B.Buffer) returns (ok: bool)
      requires buf.Valid() && Ready()
      modifies this, request, buf
      ensures buf.Valid() && Now(ok, buf) == Parse(old(state), old(request.View()), old(buf.Contents()))
      ensures ok && state != GotAll ==> Ready()
    {
      hide Parse;
      ok := true;
      var hasMore := true;
      ghost var o := Parse(state, request.View(), buf.Contents());
      while hasMore
        invariant buf.Valid() && (hasMore ==> ok && Ready()) && (ok && state != GotAll ==> Ready())
        invariant o == if hasMore then Parse(state, request.View(), buf.Contents()) else Now(ok, buf)
        decreases hasMore, |buf.Contents()|
      {
        if state == ExpectRequestLine {
          ok, hasMore := ParseRequestLine(buf);
        } else {
          hasMore := ParseHeader(buf);
        }
      }
    }
  }
}
