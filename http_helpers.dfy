/** The pure string helpers of the web UI server (src/SimpleHttpUiServer.cpp): request
    routing, reading the `cmd` query parameter, content types, status lines, the
    framing of an HTTP/1.1 response and the path guard in front of file reads. The file
    system is a map from paths to contents; sockets and threads are not modelled. */
module HttpHelpers {
  import opened Wrappers

  // ---------------------------------------------------------------------------
  // Searching in strings

  /** The text `pat` occurs in `s` at position `i`. */
  predicate OccursAt(s: string, pat: string, i: nat) {
    i + |pat| <= |s| && s[i..i + |pat|] == pat
  }

  /** `find` from position `k`: the first occurrence of `pat` at or after `k`. */
  function FindFrom(s: string, pat: string, k: nat): (r: Option<nat>)
    requires k <= |s|
    ensures r.Some? ==> (k <= r.value && OccursAt(s, pat, r.value) &&
      forall i :: k <= i < r.value ==> !OccursAt(s, pat, i))
    ensures r.None? ==> forall i :: k <= i <= |s| ==> !OccursAt(s, pat, i)
    decreases |s| - k
  {
    if OccursAt(s, pat, k) then Some(k)
    else if k == |s| then None
    else FindFrom(s, pat, k + 1)
  }

  /** `std::string::find`: the first occurrence of `pat` in `s`. */
  function Find(s: string, pat: string): (r: Option<nat>)
    ensures r.Some? ==> OccursAt(s, pat, r.value) && forall i :: 0 <= i < r.value ==> !OccursAt(s, pat, i)
    ensures r.None? ==> forall i :: 0 <= i <= |s| ==> !OccursAt(s, pat, i)
  {
    FindFrom(s, pat, 0)
  }

  predicate Contains(s: string, pat: string) {
    Find(s, pat).Some?
  }

  predicate EndsWith(s: string, suffix: string) {
    |s| >= |suffix| && s[|s| - |suffix|..] == suffix
  }

  // ---------------------------------------------------------------------------
  // decodePath

  datatype Route = Index | Snapshot | Command | ConfigPage | ConfigApi | Unknown

  /** The name `decodePath` returns for a route. */
  function RouteName(r: Route): string {
    match r
    case Index => "index"
    case Snapshot => "snapshot"
    case Command => "command"
    case ConfigPage => "config_page"
    case ConfigApi => "config_api"
    case Unknown => "unknown"
  }

  /** `decodePath`: exact paths for the page and the configuration page, prefixes (so
      query strings pass) for the snapshot, command and configuration API. */
  function DecodePath(path: string): Route {
    if path == "/" || path == "/index.html" then Index
    else if "/snapshot" <= path then Snapshot
    else if "/command" <= path then Command
    else if path == "/config" || path == "/config/" then ConfigPage
    else if "/config/api" <= path || path == "/config.json" then ConfigApi
    else Unknown
  }

  /** Each route is recognised by its own test alone: the earlier tests never take a
      path away from a later route. */
  lemma DecodePathSpec(path: string)
    ensures DecodePath(path) == Index <==> path == "/" || path == "/index.html"
    ensures DecodePath(path) == Snapshot <==> "/snapshot" <= path
    ensures DecodePath(path) == Command <==> "/command" <= path
    ensures DecodePath(path) == ConfigPage <==> path == "/config" || path == "/config/"
    ensures DecodePath(path) == ConfigApi <==> "/config/api" <= path || path == "/config.json"
  {
    if "/snapshot" <= path {
      assert path[1] == 's';
    }
    if "/command" <= path {
      assert path[1] == 'c' && path[2] == 'o' && path[3] == 'm';
    }
    if "/config/api" <= path {
      assert path[1] == 'c' && path[2] == 'o' && path[3] == 'n' && |path| >= 11;
    }
  }

  /** Anything appended to a snapshot, command or configuration API path (a query
      string, say) keeps its route. */
  lemma PrefixRoutesKeepSuffixes(path: string, rest: string)
    requires "/snapshot" <= path || "/command" <= path || "/config/api" <= path
    ensures DecodePath(path + rest) == DecodePath(path)
  {
    DecodePathSpec(path);
    DecodePathSpec(path + rest);
    assert path <= path + rest;
  }

  // ---------------------------------------------------------------------------
  // extractCmd

  /** The text after `i` up to the first `&` (all of it when there is none). */
  function UpToAmpersand(s: string): (r: string)
    ensures r <= s && '&' !in r
    ensures |r| == |s| || s[|r|] == '&'
  {
    if s == [] || s[0] == '&' then ""
    else [s[0]] + UpToAmpersand(s[1..])
  }

  /** `extractCmd`: empty without `cmd=`; otherwise what follows the first `cmd=`, up to
      the first `&` after it. */
  function ExtractCmd(path: string): (r: string)
    ensures '&' !in r
    ensures Find(path, "cmd=").None? ==> r == ""
    ensures Find(path, "cmd=").Some? ==>
      var start := Find(path, "cmd=").value + 4;
      r <= path[start..] && (start + |r| == |path| || path[start + |r|] == '&')
  {
    match Find(path, "cmd=")
    case None => ""
    case Some(q) => UpToAmpersand(path[q + 4..])
  }

  // ---------------------------------------------------------------------------
  // contentTypeForPath

  /** `contentTypeForPath`: by suffix, defaulting to plain text. */
  function ContentTypeForPath(path: string): string {
    if EndsWith(path, ".html") then "text/html; charset=utf-8"
    else if EndsWith(path, ".css") then "text/css; charset=utf-8"
    else if EndsWith(path, ".js") then "application/javascript; charset=utf-8"
    else if EndsWith(path, ".json") then "application/json; charset=utf-8"
    else "text/plain; charset=utf-8"
  }

  /** Each content type is chosen exactly by its own suffix: the suffixes are tested in
      an order that never lets one shadow another. */
  lemma ContentTypeSpec(path: string)
    ensures ContentTypeForPath(path) == "text/html; charset=utf-8" <==> EndsWith(path, ".html")
    ensures ContentTypeForPath(path) == "text/css; charset=utf-8" <==> EndsWith(path, ".css")
    ensures ContentTypeForPath(path) == "application/javascript; charset=utf-8" <==> EndsWith(path, ".js")
    ensures ContentTypeForPath(path) == "application/json; charset=utf-8" <==> EndsWith(path, ".json")
  {
    var n := |path|;
    if EndsWith(path, ".html") {
      assert path[n - 1] == 'l';
    }
    if EndsWith(path, ".css") {
      assert path[n - 1] == 's' && path[n - 2] == 's';
    }
    if EndsWith(path, ".js") {
      assert path[n - 1] == 's' && path[n - 2] == 'j';
    }
    if EndsWith(path, ".json") {
      assert path[n - 1] == 'n';
    }
  }

  // ---------------------------------------------------------------------------
  // Decimal numbers

  predicate IsDigit(c: char) {
    '0' <= c <= '9'
  }

  predicate AllDigits(s: string) {
    forall c :: c in s ==> IsDigit(c)
  }

  function DigitChar(d: nat): (c: char)
    requires d < 10
    ensures IsDigit(c)
  {
    "0123456789"[d]
  }

  function DigitValue(c: char): (d: nat)
    requires IsDigit(c)
    ensures d < 10
  {
    (c as int - '0' as int) as nat
  }

  /** `std::to_string` of a non-negative number: decimal digits, no leading zero. */
  function NatToString(n: nat): (r: string)
    ensures |r| >= 1 && AllDigits(r)
    ensures r[0] != '0' || n == 0
    decreases n
  {
    if n < 10 then [DigitChar(n)]
    else NatToString(n / 10) + [DigitChar(n % 10)]
  }

  /** `std::to_string` of an int: a minus sign before negative numbers. */
  function IntToString(i: int): string {
    if i < 0 then "-" + NatToString(-i) else NatToString(i)
  }

  /** The value of a string of decimal digits. */
  function ParseDigits(s: string): nat
    requires AllDigits(s)
  {
    if s == [] then 0
    else ParseDigits(s[..|s| - 1]) * 10 + DigitValue(s[|s| - 1])
  }

  /** Reading a number back from its decimal text gives the number. */
  lemma {:induction false} NatToStringRoundTrip(n: nat)
    ensures ParseDigits(NatToString(n)) == n
    decreases n
  {
    if n >= 10 {
      NatToStringRoundTrip(n / 10);
      var s := NatToString(n);
      assert s[..|s| - 1] == NatToString(n / 10);
    } else {
      assert DigitValue(DigitChar(n)) == n by {
        assert "0123456789"[n] as int == '0' as int + n;
      }
    }
  }

  lemma NatToStringInjective(a: nat, b: nat)
    requires NatToString(a) == NatToString(b)
    ensures a == b
  {
    NatToStringRoundTrip(a);
    NatToStringRoundTrip(b);
  }

  // ---------------------------------------------------------------------------
  // statusTextFromCode

  /** `statusTextFromCode`: the five codes the server uses get their reason phrase, any
      other code the word "Unknown". */
  function StatusTextFromCode(code: int): (r: string) {
    if code == 200 then "200 OK"
    else if code == 400 then "400 Bad Request"
    else if code == 404 then "404 Not Found"
    else if code == 405 then "405 Method Not Allowed"
    else if code == 500 then "500 Internal Server Error"
    else IntToString(code) + " Unknown"
  }

  /** The reason phrase that follows the code in a status text. */
  function ReasonPhrase(code: int): string {
    match code
    case 200 => "OK"
    case 400 => "Bad Request"
    case 404 => "Not Found"
    case 405 => "Method Not Allowed"
    case 500 => "Internal Server Error"
    case _ => "Unknown"
  }

  /** Every status text is the code in decimal, a space and the reason phrase: the
      status-line shape of section 4 of RFC 9112. */
  lemma StatusTextShape(code: int)
    ensures StatusTextFromCode(code) == IntToString(code) + " " + ReasonPhrase(code)
  {
    if code == 200 {
      StatusText200();
    } else if code == 400 {
      StatusText400();
    } else if code == 404 {
      StatusText404();
    } else if code == 405 {
      StatusText405();
    } else if code == 500 {
      StatusText500();
    } else {
      assert ReasonPhrase(code) == "Unknown";
      assert IntToString(code) + " Unknown" == IntToString(code) + " " + "Unknown";
    }
  }

  /** The decimal text of a three-digit number. */
  lemma {:induction false} ThreeDigitText(a: nat, b: nat, c: nat)
    requires 1 <= a < 10 && b < 10 && c < 10
    ensures IntToString(100 * a + 10 * b + c) == [DigitChar(a), DigitChar(b), DigitChar(c)]
  {
    var n := 100 * a + 10 * b + c;
    assert n / 10 == 10 * a + b && n % 10 == c;
    assert (10 * a + b) / 10 == a && (10 * a + b) % 10 == b;
    assert NatToString(10 * a + b) == [DigitChar(a)] + [DigitChar(b)];
  }

  lemma StatusText200()
    ensures StatusTextFromCode(200) == IntToString(200) + " " + ReasonPhrase(200)
  {
    ThreeDigitText(2, 0, 0);
    assert IntToString(200) == "200";
    StatusLiteral200();
  }

  lemma StatusLiteral200()
    ensures StatusTextFromCode(200) == "200" + " " + ReasonPhrase(200)
  {
  }

  lemma StatusText400()
    ensures StatusTextFromCode(400) == IntToString(400) + " " + ReasonPhrase(400)
  {
    ThreeDigitText(4, 0, 0);
    assert IntToString(400) == "400";
    StatusLiteral400();
  }

  lemma StatusLiteral400()
    ensures StatusTextFromCode(400) == "400" + " " + ReasonPhrase(400)
  {
  }

  lemma StatusText404()
    ensures StatusTextFromCode(404) == IntToString(404) + " " + ReasonPhrase(404)
  {
    ThreeDigitText(4, 0, 4);
    assert IntToString(404) == "404";
    StatusLiteral404();
  }

  lemma StatusLiteral404()
    ensures StatusTextFromCode(404) == "404" + " " + ReasonPhrase(404)
  {
  }

  lemma StatusText405()
    ensures StatusTextFromCode(405) == IntToString(405) + " " + ReasonPhrase(405)
  {
    ThreeDigitText(4, 0, 5);
    assert IntToString(405) == "405";
    StatusLiteral405();
  }

  lemma StatusLiteral405()
    ensures StatusTextFromCode(405) == "405" + " " + ReasonPhrase(405)
  {
  }

  lemma StatusText500()
    ensures StatusTextFromCode(500) == IntToString(500) + " " + ReasonPhrase(500)
  {
    ThreeDigitText(5, 0, 0);
    assert IntToString(500) == "500";
    StatusLiteral500();
  }

  lemma StatusLiteral500()
    ensures StatusTextFromCode(500) == "500" + " " + ReasonPhrase(500)
  {
  }

  /** The number written by the digits before the first space. */
  function LeadingNumber(text: string): Option<nat> {
    match Find(text, " ")
    case None => None
    case Some(sp) =>
      if sp == 0 || !AllDigits(text[..sp]) then None else Some(ParseDigits(text[..sp]))
  }

  /** The code a status text starts with: an optional minus sign and the digits before
      the first space. */
  function CodeOfStatusText(text: string): Option<int> {
    if |text| > 0 && text[0] == '-' then
      match LeadingNumber(text[1..])
      case None => None
      case Some(n) => Some(-(n as int))
    else
      match LeadingNumber(text)
      case None => None
      case Some(n) => Some(n)
  }

  lemma FindSpaceAfterDigits(digits: string, tail: string)
    requires AllDigits(digits)
    ensures Find(digits + " " + tail, " ") == Some(|digits|)
  {
    var rest := digits + " " + tail;
    forall i | 0 <= i < |digits|
      ensures !OccursAt(rest, " ", i)
    {
      assert rest[i] == digits[i] && IsDigit(digits[i]);
    }
    assert OccursAt(rest, " ", |digits|);
  }

  lemma LeadingNumberOfDigits(digits: string, tail: string)
    requires AllDigits(digits) && |digits| >= 1
    ensures LeadingNumber(digits + " " + tail) == Some(ParseDigits(digits))
  {
    FindSpaceAfterDigits(digits, tail);
    assert (digits + " " + tail)[..|digits|] == digits;
  }

  lemma CodeOfUnsigned(digits: string, tail: string)
    requires AllDigits(digits) && |digits| >= 1
    ensures CodeOfStatusText(digits + " " + tail) == Some(ParseDigits(digits) as int)
  {
    var text := digits + " " + tail;
    assert text[0] == digits[0] && IsDigit(text[0]);
    LeadingNumberOfDigits(digits, tail);
  }

  lemma NegatedCode(text: string, n: nat)
    requires |text| > 0 && text[0] == '-' && LeadingNumber(text[1..]) == Some(n)
    ensures CodeOfStatusText(text) == Some(-(n as int))
  {
  }

  lemma NegativeCodeReadBack(code: int, tail: string)
    requires code < 0
    ensures CodeOfStatusText(IntToString(code) + " " + tail) == Some(code)
  {
    var n: nat := -code;
    var rest := NatToString(n) + " " + tail;
    assert IntToString(code) + " " + tail == "-" + rest;
    assert ("-" + rest)[1..] == rest;
    LeadingNumberOfDigits(NatToString(n), tail);
    NatToStringRoundTrip(n);
    NegatedCode("-" + rest, n);
  }

  lemma CodeReadBack(code: int, tail: string)
    ensures CodeOfStatusText(IntToString(code) + " " + tail) == Some(code)
  {
    if code < 0 {
      NegativeCodeReadBack(code, tail);
    } else {
      NatToStringRoundTrip(code);
      CodeOfUnsigned(NatToString(code), tail);
    }
  }

  /** The code can be read back from any status text: the status line names the code
      that was asked for, and different codes give different texts. */
  lemma StatusTextNamesCode(code: int, other: int)
    ensures CodeOfStatusText(StatusTextFromCode(code)) == Some(code)
    ensures StatusTextFromCode(code) == StatusTextFromCode(other) ==> code == other
  {
    StatusTextShape(code);
    StatusTextShape(other);
    CodeReadBack(code, ReasonPhrase(code));
    CodeReadBack(other, ReasonPhrase(other));
  }

  // ---------------------------------------------------------------------------
  // buildHttpResponse

  /** Everything before the body: the status line, the fixed headers, the length of the
      body, and the empty line. */
  function ResponseHead(status: string, contentType: string, bodyLength: nat): string {
    "HTTP/1.1 " + status + "\r\n" +
    "Content-Type: " + contentType + "\r\n" +
    "Cache-Control: no-store, no-cache, must-revalidate, max-age=0\r\n" +
    "Pragma: no-cache\r\n" +
    "Expires: 0\r\n" +
    "Content-Length: " + NatToString(bodyLength) + "\r\n" +
    "Connection: close\r\n\r\n"
  }

  /** `buildHttpResponse`: the head, then the body. It starts with the status line,
      ends with the empty line and the body, and states the body's length (section 4 of
      RFC 9112, section 8.6 of RFC 9110). */
  function BuildHttpResponse(status: string, contentType: string, body: string): (r: string)
    ensures "HTTP/1.1 " + status + "\r\n" <= r
    ensures EndsWith(r, "\r\n\r\n" + body)
  {
    var head := ResponseHead(status, contentType, |body|);
    ResponseHeadShape(status, contentType, |body|);
    assert (head + body)[|head| - 4..] == head[|head| - 4..] + body;
    head + body
  }

  lemma ResponseHeadShape(status: string, contentType: string, bodyLength: nat)
    ensures "HTTP/1.1 " + status + "\r\n" <= ResponseHead(status, contentType, bodyLength)
    ensures EndsWith(ResponseHead(status, contentType, bodyLength), "\r\n\r\n")
  {
    var head := ResponseHead(status, contentType, bodyLength);
    var last := "Connection: close\r\n\r\n";
    assert head[|head| - |last|..] == last;
    assert last[|last| - 4..] == "\r\n\r\n";
  }

  /** The body is everything after the head, and the `Content-Length` the head states
      reads back as the length of that body. */
  lemma ResponseFraming(status: string, contentType: string, body: string)
    ensures var r := BuildHttpResponse(status, contentType, body);
      var head := ResponseHead(status, contentType, |body|);
      head <= r && r[|head|..] == body &&
      ParseDigits(NatToString(|r| - |head|)) == |body|
  {
    NatToStringRoundTrip(|body|);
  }

  function ContentLengthLine(bodyLength: nat): string {
    "Content-Length: " + NatToString(bodyLength) + "\r\n"
  }

  /** The head holds the `Content-Length` line of the body's length. */
  lemma ContentLengthStated(status: string, contentType: string, bodyLength: nat)
    ensures exists i :: OccursAt(ResponseHead(status, contentType, bodyLength), ContentLengthLine(bodyLength), i)
  {
    var line := ContentLengthLine(bodyLength);
    var before := "HTTP/1.1 " + status + "\r\n" +
      "Content-Type: " + contentType + "\r\n" +
      "Cache-Control: no-store, no-cache, must-revalidate, max-age=0\r\n" +
      "Pragma: no-cache\r\n" +
      "Expires: 0\r\n";
    var head := ResponseHead(status, contentType, bodyLength);
    assert head == before + line + "Connection: close\r\n\r\n";
    assert head[|before|..|before| + |line|] == line;
    assert OccursAt(head, line, |before|);
  }

  // ---------------------------------------------------------------------------
  // readWebFile

  /** `readFileIfExists`: the contents of a file, or empty when there is none. */
  function ReadFileIfExists(files: map<string, string>, path: string): string {
    if path in files then files[path] else ""
  }

  /** `readWebFile`: an empty path or one containing `..` reads nothing; otherwise the
      first non-empty file among the two web roots. */
  function ReadWebFile(files: map<string, string>, relative: string): (r: string)
    ensures relative == [] || Contains(relative, "..") ==> r == ""
    ensures r != "" ==> r == ReadFileIfExists(files, "./web/" + relative) ||
                        r == ReadFileIfExists(files, "../web/" + relative)
  {
    if relative == [] || Contains(relative, "..") then ""
    else
      var first := ReadFileIfExists(files, "./web/" + relative);
      if first != "" then first else ReadFileIfExists(files, "../web/" + relative)
  }

  /** The guard is decided before any file is consulted: a refused path reads nothing
      whatever the files are, and an allowed path reads the same in any two file systems
      that agree on its two locations. */
  lemma ReadWebFileGuard(files: map<string, string>, other: map<string, string>, relative: string)
    ensures Contains(relative, "..") ==> ReadWebFile(files, relative) == ReadWebFile(other, relative) == ""
    ensures ReadFileIfExists(files, "./web/" + relative) == ReadFileIfExists(other, "./web/" + relative) &&
            ReadFileIfExists(files, "../web/" + relative) == ReadFileIfExists(other, "../web/" + relative) ==>
            ReadWebFile(files, relative) == ReadWebFile(other, relative)
  {
  }

  /** Routing examples, query strings included. */
  lemma RouteExamples()
    ensures DecodePath("/command?cmd=start") == Command
    ensures DecodePath("/config") == ConfigPage && DecodePath("/config/api/save") == ConfigApi
    ensures DecodePath("/configure") == Unknown
  {
    DecodePathSpec("/command?cmd=start");
    DecodePathSpec("/config/api/save");
    assert "/command?cmd=start" == "/command" + "?cmd=start";
    assert "/config/api/save" == "/config/api" + "/save";
    assert "/configure"[7] != "/config/api"[7];
  }

  /** A code the server does not name is still printed with its number. */
  lemma UnknownStatusExample()
    ensures StatusTextFromCode(418) == "418 Unknown"
  {
    assert NatToString(418) == "418";
  }

  /** The command parameter stops at the next `&`. */
  lemma ExtractCmdExample()
    ensures ExtractCmd("cmd=pause&x=1") == "pause"
  {
    assert OccursAt("cmd=pause&x=1", "cmd=", 0);
    assert "cmd=pause&x=1"[4..] == "pause&x=1";
    UpToAmpersandExample();
  }

  lemma UpToAmpersandExample()
    ensures UpToAmpersand("pause&x=1") == "pause"
  {
    var s := "pause&x=1";
    var r := UpToAmpersand(s);
    assert s[5] == '&' && '&' !in s[..5];
    assert r == s[..5];
  }
}
