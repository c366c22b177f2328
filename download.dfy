/** `migrate/libs/download.ts`: fetching one storage object through the
    aria2 download daemon, with a retry loop around single attempts.

    The daemon, the HTTP endpoints, the clock and the local file system are
    outside the model. Their answers are inputs: the replies to HEAD
    requests, the daemon's status answers together with the clock readings
    taken at each poll, and the files the daemon writes or removes while a
    task runs. The local files are a map from path to size. */
module Download {
  import opened Seqs

  const DefaultRetries: int := 3
  const DefaultBackoffMs: int := 60000
  const DefaultStallTimeoutMs: int := 1200000
  /** Soft recoveries allowed in one attempt; the next stall is fatal. */
  const MaxSoftRecoveries: nat := 2
  /** The HTTP status on which a HEAD probe waits a minute and asks again. */
  const TooManyRequests: int := 429
  const DownloadDir: string := "migrate/downloads"
  const HeadCheckFailed: string := "URL HEAD check failed"
  const HeadRequestError: string := "URL HEAD request error"

  // ---------------------------------------------------------------------
  // Errors and outcomes
  // ---------------------------------------------------------------------

  /** The `status` field of an aria2 `tellStatus` answer. */
  datatype TaskStatus = Active | Waiting | Paused | Error | Complete | Removed

  /** What `downloadOnce` and `start` throw. Only `UrlCheckFailed` (a
      `SkipDownloadError`) carries the code `URL_CHECK_FAILED`. Its reason is
      the text `process` records as the skip reason: the JSON text
      `{"status":…,"statusText":"…"}` of a rejecting response, or
      `{"error":"…"}` built around a request error's message. */
  datatype DownloadError =
    | UrlCheckFailed(message: string, reason: string)
    | NoUrl
    | FileMissing(path: string)
    | SizeMismatch(got: nat, expected: int)
    | FileEmpty(path: string)
    | StalledFor(stallTimeoutMs: int)
    | TaskEnded(status: TaskStatus, errorMessage: string)
    | RpcFailed(message: string)
    | FailedAfterRetries

  /** How a call ends: it returns, it throws, or it is still waiting when its
      inputs run out (the source waits for ever while rate-limited and polls
      for ever while a task neither ends nor stalls). */
  datatype Outcome = Ok | Err(error: DownloadError) | Unfinished

  /** A failure after which `start` may try again. */
  predicate Retryable(o: Outcome) {
    o.Err? && !o.error.UrlCheckFailed?
  }

  // ---------------------------------------------------------------------
  // Local files
  // ---------------------------------------------------------------------

  /** The files the daemon removes and writes (with their sizes) while a task runs. */
  datatype DiskEffect = DiskEffect(removed: set<string>, written: map<string, nat>)

  /** The files after an effect: written files with their new sizes, removed
      files gone, every other file as it was. */
  function Applied(files: map<string, nat>, e: DiskEffect): (r: map<string, nat>)
    ensures forall p :: p in e.written ==> p in r && r[p] == e.written[p]
    ensures forall p :: p !in e.written ==> (p in r <==> p in files && p !in e.removed)
    ensures forall p :: p in r && p !in e.written ==> r[p] == files[p]
  {
    (files - e.removed) + e.written
  }

  /** The local file system: each existing file with its size. */
  class LocalDisk {
    var files: map<string, nat>

    constructor(files: map<string, nat>)
      ensures this.files == files
    {
      this.files := files;
    }

    /** `fs.unlinkSync`. */
    method Delete(path: string)
      modifies this
      ensures files == old(files) - {path}
    {
      files := files - {path};
    }

    /** `fs.rmSync(path, { recursive: true, force: true })`: the path and
        everything under it. */
    method DeleteTree(path: string)
      modifies this
      ensures files == WithoutTree(old(files), path)
    {
      files := WithoutTree(files, path);
    }

    /** What the daemon does to the files while a task runs. */
    method Apply(e: DiskEffect)
      modifies this
      ensures files == Applied(old(files), e)
    {
      files := Applied(files, e);
    }
  }

  /** `k` lies inside the directory `dir`. */
  predicate IsUnder(dir: string, k: string) {
    IsPrefix(dir + "/", k)
  }

  /** `fs.existsSync(p)`: a file at `p`, or a directory at `p`, which holds
      at least one file. */
  predicate PathExists(files: map<string, nat>, p: string) {
    p in files || exists k :: k in files && IsUnder(p, k)
  }

  /** The files after `p` and everything under it are removed. */
  function WithoutTree(files: map<string, nat>, p: string): (r: map<string, nat>)
    ensures !PathExists(r, p)
    ensures forall k :: k in files && k != p && !IsUnder(p, k) ==> k in r && r[k] == files[k]
    ensures forall k :: k in r ==> k in files
  {
    map k | k in files && k != p && !IsUnder(p, k) :: files[k]
  }

  function SavePath(outName: string): string {
    DownloadDir + "/" + outName
  }

  /** aria2's control file next to a partial download. */
  function CtrlPath(savePath: string): string {
    savePath + ".aria2"
  }

  /** The files after `prepareTargetForDownload`: a data file without a
      control file, or a control file without a data file, is removed. */
  function Prepared(files: map<string, nat>, savePath: string): (r: map<string, nat>)
    ensures forall p :: p in r ==> p in files && r[p] == files[p]
    ensures forall p :: p in files && p != savePath && p != CtrlPath(savePath) ==> p in r
    ensures savePath in r <==> CtrlPath(savePath) in r
    ensures (savePath in files <==> CtrlPath(savePath) in files) ==> r == files
  {
    var fileExists := savePath in files;
    var ctrlExists := CtrlPath(savePath) in files;
    if fileExists && !ctrlExists then files - {savePath}
    else if !fileExists && ctrlExists then files - {CtrlPath(savePath)}
    else files
  }

  /** `prepareTargetForDownload`. */
  method PrepareTargetForDownload(disk: LocalDisk, savePath: string)
    modifies disk
    ensures disk.files == Prepared(old(disk.files), savePath)
  {
    var ctrlPath := CtrlPath(savePath);
    var fileExists := savePath in disk.files;
    var ctrlExists := ctrlPath in disk.files;
    if fileExists && !ctrlExists {
      disk.Delete(savePath);
    }
    if !fileExists && ctrlExists {
      disk.Delete(ctrlPath);
    }
  }

  /** `verifyFileIntegrity`: None when the check passes, else the error thrown. */
  function VerifyFileIntegrity(files: map<string, nat>, savePath: string, expectedSize: Option<int>): (r: Option<DownloadError>)
    ensures r.None? <==>
      && savePath in files
      && files[savePath] > 0
      && (expectedSize.Some? && expectedSize.value > 0 ==> files[savePath] == expectedSize.value)
    ensures r.Some? ==> Retryable(Err(r.value))
  {
    if savePath !in files then Some(FileMissing(savePath))
    else
      var size := files[savePath];
      if expectedSize.Some? && expectedSize.value > 0 && size != expectedSize.value then
        Some(SizeMismatch(size, expectedSize.value))
      else if size <= 0 then Some(FileEmpty(savePath))
      else None
  }

  // ---------------------------------------------------------------------
  // HEAD probes: getUrl and checkUrl
  // ---------------------------------------------------------------------

  /** The answer to one HEAD request: a response with its status code and
      status text, or a network error. A HEAD response carries no body. */
  datatype HeadReply = Reply(status: int, statusText: string) | NetworkError(message: string)

  predicate RateLimited(r: HeadReply) {
    r.Reply? && r.status == TooManyRequests
  }

  /** `Response.ok`. */
  predicate IsOkStatus(status: int) {
    200 <= status <= 299
  }

  /** The position of the first reply that is not a 429, if any. */
  function FirstSettled(replies: seq<HeadReply>): (r: Option<nat>)
    ensures r.Some? ==>
      r.value < |replies| && !RateLimited(replies[r.value])
      && forall k :: 0 <= k < r.value ==> RateLimited(replies[k])
    ensures r.None? ==> forall k :: 0 <= k < |replies| ==> RateLimited(replies[k])
  {
    if replies == [] then None
    else if !RateLimited(replies[0]) then Some(0)
    else
      match FirstSettled(replies[1..])
      case None => None
      case Some(i) => Some(i + 1)
  }

  /** The URL `getUrl` settles on, given the replies to its HEAD probes of
      the first bucket: the first bucket on an ok reply, the second on any
      other status or a network error; None while every reply is a 429. */
  function BucketUrl(bucket1: string, bucket2: string, key: string, replies: seq<HeadReply>): (r: Option<string>)
    ensures r.None? <==> forall k :: 0 <= k < |replies| ==> RateLimited(replies[k])
    ensures forall i :: 0 <= i < |replies| && !RateLimited(replies[i]) && (forall k :: 0 <= k < i ==> RateLimited(replies[k])) ==>
      r == Some(if replies[i].Reply? && IsOkStatus(replies[i].status) then bucket1 + key else bucket2 + key)
  {
    match FirstSettled(replies)
    case None => None
    case Some(i) =>
      if replies[i].Reply? && IsOkStatus(replies[i].status) then Some(bucket1 + key) else Some(bucket2 + key)
  }

  /** `getUrl`. */
  method GetUrl(bucket1: string, bucket2: string, key: string, replies: seq<HeadReply>) returns (url: Option<string>)
    ensures url == BucketUrl(bucket1, bucket2, key, replies)
  {
    var i := 0;
    while i < |replies|
      invariant 0 <= i <= |replies|
      invariant forall k :: 0 <= k < i ==> RateLimited(replies[k])
    {
      var reply := replies[i];
      if reply.NetworkError? {
        return Some(bucket2 + key);
      }
      if reply.status == TooManyRequests {
        i := i + 1;
        continue;
      }
      if IsOkStatus(reply.status) {
        return Some(bucket1 + key);
      }
      return Some(bucket2 + key);
    }
    return None;
  }

  /** What `checkUrl` reports: the URL answered ok, answered with another
      status, or the request failed. A rejection carries the JSON text of
      its `data`, which for a HEAD response is always the fallback object
      `{ status, statusText }`: the reply has no body, so `res.json()` fails. */
  datatype UrlCheck = Passed | Rejected(data: string) | RequestError(message: string)

  /** The result `checkUrl` settles on; None while every reply is a 429. */
  function UrlCheckOf(replies: seq<HeadReply>): (r: Option<UrlCheck>)
    ensures r.None? <==> forall k :: 0 <= k < |replies| ==> RateLimited(replies[k])
    ensures forall i :: 0 <= i < |replies| && !RateLimited(replies[i]) && (forall k :: 0 <= k < i ==> RateLimited(replies[k])) ==>
      r == Some(match replies[i]
                case NetworkError(m) => RequestError(m)
                case Reply(status, text) => if IsOkStatus(status) then Passed else Rejected(RejectionReason(status, text)))
  {
    match FirstSettled(replies)
    case None => None
    case Some(i) =>
      match replies[i]
      case NetworkError(m) => Some(RequestError(m))
      case Reply(status, text) => if IsOkStatus(status) then Some(Passed) else Some(Rejected(RejectionReason(status, text)))
  }

  /** A lower-case hexadecimal digit. */
  function HexDigit(d: int): char
    requires 0 <= d < 16
  {
    if d < 10 then ('0' as int + d) as char else ('a' as int + d - 10) as char
  }

  /** A character `JSON.stringify` copies into a string literal as it is. */
  predicate JsonPlain(c: char) {
    c != '"' && c != '\\' && c >= ' '
  }

  /** How `JSON.stringify` writes one character inside a string literal:
      quote and backslash escaped, control characters as their short escape
      or as `\u00xx`, everything else as it is. */
  function JsonEscapeChar(c: char): (r: string)
    ensures r == [c] <==> JsonPlain(c)
    ensures !JsonPlain(c) ==> |r| >= 2 && r[0] == '\\'
  {
    if c == '"' then "\\\""
    else if c == '\\' then "\\\\"
    else if c as int == 8 then "\\b"
    else if c as int == 9 then "\\t"
    else if c as int == 10 then "\\n"
    else if c as int == 12 then "\\f"
    else if c as int == 13 then "\\r"
    else if c < ' ' then "\\u00" + [HexDigit(c as int / 16), HexDigit(c as int % 16)]
    else [c]
  }

  /** The inside of `JSON.stringify(s)`, between its quotes. */
  function JsonEscape(s: string): (r: string)
    ensures |r| >= |s|
    ensures (forall k :: 0 <= k < |s| ==> JsonPlain(s[k])) ==> r == s
    ensures (exists k :: 0 <= k < |s| && !JsonPlain(s[k])) ==> '\\' in r
  {
    if s == [] then []
    else
      var rest := JsonEscape(s[1..]);
      assert forall k :: 1 <= k < |s| ==> s[1..][k - 1] == s[k];
      assert !JsonPlain(s[0]) ==> JsonEscapeChar(s[0])[0] == (JsonEscapeChar(s[0]) + rest)[0];
      JsonEscapeChar(s[0]) + rest
  }

  /** The value of a hexadecimal digit, or -1 for another character. */
  function HexValue(c: char): (v: int)
    ensures -1 <= v < 16
  {
    if '0' <= c <= '9' then c as int - '0' as int
    else if 'a' <= c <= 'f' then c as int - 'a' as int + 10
    else if 'A' <= c <= 'F' then c as int - 'A' as int + 10
    else -1
  }

  lemma HexValueOfDigit(d: int)
    requires 0 <= d < 16
    ensures HexValue(HexDigit(d)) == d
  {
  }

  /** How `JSON.parse` reads the inside of a string literal written by
      `JsonEscape`: each escape sequence becomes the character it stands
      for, every other character is kept. It is a decoder for the texts
      `JsonEscape` produces only: on a backslash that starts no valid escape
      it keeps the backslash, where `JSON.parse` would throw. */
  function JsonUnescape(r: string): string
    decreases |r|
  {
    if r == [] then []
    else if r[0] != '\\' || |r| < 2 then [r[0]] + JsonUnescape(r[1..])
    else
      var e := r[1];
      if e == '"' || e == '\\' || e == '/' then [e] + JsonUnescape(r[2..])
      else if e == 'b' then [8 as char] + JsonUnescape(r[2..])
      else if e == 't' then [9 as char] + JsonUnescape(r[2..])
      else if e == 'n' then [10 as char] + JsonUnescape(r[2..])
      else if e == 'f' then [12 as char] + JsonUnescape(r[2..])
      else if e == 'r' then [13 as char] + JsonUnescape(r[2..])
      else if e == 'u' && |r| >= 6 && HexValue(r[2]) >= 0 && HexValue(r[3]) >= 0 && HexValue(r[4]) >= 0 && HexValue(r[5]) >= 0 then
        var v := ((HexValue(r[2]) * 16 + HexValue(r[3])) * 16 + HexValue(r[4])) * 16 + HexValue(r[5]);
        if v < 0xD800 || 0xE000 <= v then [v as char] + JsonUnescape(r[6..])
        else [r[0]] + JsonUnescape(r[1..])
      else [r[0]] + JsonUnescape(r[1..])
  }

  /** Reading back one written character, followed by anything. */
  lemma UnescapeEscapedChar(c: char, rest: string)
    ensures JsonUnescape(JsonEscapeChar(c) + rest) == [c] + JsonUnescape(rest)
  {
    var r := JsonEscapeChar(c) + rest;
    if JsonPlain(c) {
      assert r[1..] == rest;
    } else if c == '"' || c == '\\' || c as int in {8, 9, 10, 12, 13} {
      assert r[2..] == rest;
    } else {
      var hi := c as int / 16;
      var lo := c as int % 16;
      HexValueOfDigit(hi);
      HexValueOfDigit(lo);
      assert r[2] == '0' && r[3] == '0' && r[4] == HexDigit(hi) && r[5] == HexDigit(lo);
      assert r[6..] == rest;
    }
  }

  /** `JSON.parse` reads back what `JSON.stringify` wrote. */
  lemma {:induction false} JsonEscapeRoundTrip(s: string)
    ensures JsonUnescape(JsonEscape(s)) == s
    decreases |s|
  {
    if s != [] {
      JsonEscapeRoundTrip(s[1..]);
      UnescapeEscapedChar(s[0], JsonEscape(s[1..]));
      assert [s[0]] + s[1..] == s;
    }
  }

  /** The skip reason `process` records for a failed HEAD request:
      `JSON.stringify({ error: message })`. A message with no quote,
      backslash or control character appears in it as it is. */
  function RequestErrorReason(message: string): (r: string)
    ensures (forall k :: 0 <= k < |message| ==> JsonPlain(message[k])) ==>
      r == "{\"error\":\"" + message + "\"}"
    ensures |r| >= |message| + 12
  {
    "{\"error\":\"" + JsonEscape(message) + "\"}"
  }

  /** The decimal digit `d`. */
  function DigitChar(d: int): char
    requires 0 <= d < 10
  {
    ('0' as int + d) as char
  }

  predicate IsDigitChar(c: char) {
    '0' <= c <= '9'
  }

  /** How `JSON.stringify` writes a natural number: its decimal digits,
      with no leading zero. */
  function NatDecimal(n: nat): (r: string)
    ensures r != [] && forall k :: 0 <= k < |r| ==> IsDigitChar(r[k])
    ensures r[0] == '0' <==> n == 0
    ensures n < 10 <==> |r| == 1
    decreases n
  {
    if n < 10 then [DigitChar(n)]
    else
      var head := NatDecimal(n / 10);
      head + [DigitChar(n % 10)]
  }

  /** The number a string of decimal digits denotes. */
  function DecimalValue(s: string): nat
    requires forall k :: 0 <= k < |s| ==> IsDigitChar(s[k])
  {
    if s == [] then 0
    else
      assert IsDigitChar(s[|s| - 1]);
      DecimalValue(s[..|s| - 1]) * 10 + (s[|s| - 1] as int - '0' as int)
  }

  /** Reading the digits back gives the number. */
  lemma {:induction false} NatDecimalRoundTrip(n: nat)
    ensures DecimalValue(NatDecimal(n)) == n
    decreases n
  {
    if n >= 10 {
      NatDecimalRoundTrip(n / 10);
      var r := NatDecimal(n);
      assert r[..|r| - 1] == NatDecimal(n / 10);
    }
  }

  /** How `JSON.stringify` writes an integer. */
  function IntDecimal(i: int): (r: string)
    ensures r != []
    ensures r[0] == '-' <==> i < 0
    ensures i >= 0 ==> r == NatDecimal(i)
    ensures i < 0 ==> r[1..] == NatDecimal(-i)
  {
    if i < 0 then "-" + NatDecimal(-i) else NatDecimal(i)
  }

  /** The integer that text written as `IntDecimal` writes it denotes, if
      it is such a text. */
  function IntOf(d: string): Option<int> {
    var neg := d != [] && d[0] == '-';
    var digits := if neg then d[1..] else d;
    if digits != [] && forall k :: 0 <= k < |digits| ==> IsDigitChar(digits[k]) then
      var v: int := DecimalValue(digits);
      Some(if neg then -v else v)
    else None
  }

  /** Reading an integer's text back gives the integer. */
  lemma IntDecimalRoundTrip(i: int)
    ensures IntOf(IntDecimal(i)) == Some(i)
  {
    if i < 0 {
      NatDecimalRoundTrip(-i);
      NegativeIntOf(NatDecimal(-i));
    } else {
      NatDecimalRoundTrip(i);
    }
  }

  lemma NegativeIntOf(digits: string)
    requires digits != [] && forall k :: 0 <= k < |digits| ==> IsDigitChar(digits[k])
    ensures IntOf("-" + digits) == Some(-(DecimalValue(digits) as int))
  {
    assert ("-" + digits)[1..] == digits;
  }

  const StatusField: string := "{\"status\":"
  const StatusTextField: string := ",\"statusText\":\""
  const ReasonEnd: string := "\"}"

  /** The skip reason recorded for a URL answered with a status other than
      ok: `JSON.stringify({ status, statusText })`. */
  function RejectionReason(status: int, statusText: string): (r: string)
    ensures IsPrefix(StatusField, r)
    ensures |r| >= |StatusField| + |StatusTextField| + |ReasonEnd| + |statusText| + 1
    ensures status >= 0 && (forall k :: 0 <= k < |statusText| ==> JsonPlain(statusText[k])) ==>
      r == StatusField + NatDecimal(status) + StatusTextField + statusText + ReasonEnd
  {
    StatusField + IntDecimal(status) + StatusTextField + JsonEscape(statusText) + ReasonEnd
  }

  /** Reads the status and status text back out of a rejection reason, as
      `JSON.parse` would: the number runs up to the first comma, and the
      escaped text runs from the status-text field to the closing `"}`. */
  function ReadRejection(r: string): Option<(int, string)> {
    var n := |StatusField|;
    if |r| < n + |ReasonEnd| || r[..n] != StatusField || r[|r| - |ReasonEnd|..] != ReasonEnd then None
    else ReadStatusFields(r[n..|r| - |ReasonEnd|])
  }

  /** The part of `ReadRejection` between the braces' fixed text. */
  function ReadStatusFields(fields: string): Option<(int, string)> {
    if ',' !in fields then None
    else
      var c := FirstIndex(fields, ',');
      var rest := fields[c..];
      if |rest| < |StatusTextField| || rest[..|StatusTextField|] != StatusTextField then None
      else
        match IntOf(fields[..c])
        case None => None
        case Some(status) => Some((status, JsonUnescape(rest[|StatusTextField|..])))
  }

  /** The recorded reason determines the status and the status text. */
  lemma RejectionReasonReadsBack(status: int, statusText: string)
    ensures ReadRejection(RejectionReason(status, statusText)) == Some((status, statusText))
  {
    var d := IntDecimal(status);
    var e := JsonEscape(statusText);
    NoCommaInDecimal(status);
    IntDecimalRoundTrip(status);
    JsonEscapeRoundTrip(statusText);
    ReadFields(d, e);
  }

  lemma NoCommaInDecimal(i: int)
    ensures ',' !in IntDecimal(i)
  {
    var d := IntDecimal(i);
    if i < 0 {
      assert forall k :: 1 <= k < |d| ==> d[k] == NatDecimal(-i)[k - 1];
    }
  }

  /** The reader splits a reason at the fields, whatever the two texts are,
      as long as the number holds no comma. */
  lemma ReadFields(d: string, e: string)
    requires ',' !in d
    ensures var r := StatusField + d + StatusTextField + e + ReasonEnd;
      ReadRejection(r) == match IntOf(d) case None => None case Some(v) => Some((v, JsonUnescape(e)))
  {
    var m := d + StatusTextField + e;
    var r := StatusField + m + ReasonEnd;
    assert StatusField + d + StatusTextField + e + ReasonEnd == r;
    Framed(StatusField, m, ReasonEnd);
    ReadInnerFields(d, e);
  }

  lemma ReadInnerFields(d: string, e: string)
    requires ',' !in d
    ensures ReadStatusFields(d + StatusTextField + e)
      == match IntOf(d) case None => None case Some(v) => Some((v, JsonUnescape(e)))
  {
    var m := d + StatusTextField + e;
    Framed(d, StatusTextField, e);
    assert m[|d|] == StatusTextField[0] == ',';
    assert FirstIndex(m, ',') == |d|;
    Framed(StatusTextField, e, []);
    assert m[|d|..] == StatusTextField + e + [];
  }

  lemma Decimal404() ensures IntDecimal(404) == "404" {
      assert NatDecimal(4) == "4";
      assert NatDecimal(40) == "40";
  }
  lemma NotFoundPlain() ensures JsonEscape("Not Found") == "Not Found" {
    var t := "Not Found";
      assert forall k :: 0 <= k < |t| ==> JsonPlain(t[k]);
  }
  /** A 404 answer is recorded as `{"status":404,"statusText":"Not Found"}`. */
  lemma NotFoundLiteral() ensures StatusField + "404" + StatusTextField + "Not Found" + ReasonEnd == "{\"status\":404,\"statusText\":\"Not Found\"}" {}
  lemma NotFoundFields() ensures RejectionReason(404, "Not Found") == StatusField + "404" + StatusTextField + "Not Found" + ReasonEnd {
    Decimal404();
    NotFoundPlain();
  }
  lemma NotFoundReason()
    ensures RejectionReason(404, "Not Found") == "{\"status\":404,\"statusText\":\"Not Found\"}"
  {
    NotFoundFields();
    NotFoundLiteral();
  }

  /** `checkUrl`. */
  method CheckUrl(replies: seq<HeadReply>) returns (check: Option<UrlCheck>)
    ensures check == UrlCheckOf(replies)
  {
    var i := 0;
    while i < |replies|
      invariant 0 <= i <= |replies|
      invariant forall k :: 0 <= k < i ==> RateLimited(replies[k])
    {
      match replies[i]
      case NetworkError(m) =>
        return Some(RequestError(m));
      case Reply(status, text) =>
        if status == TooManyRequests {
          i := i + 1;
          continue;
        }
        if IsOkStatus(status) {
          return Some(Passed);
        }
        return Some(Rejected(RejectionReason(status, text)));
    }
    return None;
  }

  // ---------------------------------------------------------------------
  // The poll loop of downloadOnce
  // ---------------------------------------------------------------------

  /** One `tellStatus` answer with the clock readings taken at that poll:
      `now` when it is examined, `resumedAt` after a soft recovery; or the
      RPC error the call threw. */
  datatype Poll =
    | Status(completedLength: int, totalLength: int, status: TaskStatus, errorMessage: string, now: int, resumedAt: int)
    | RpcError(message: string)

  /** `lastProgressBytes`, `lastProgressAt` and `stallSoftRetries`. */
  datatype Progress = Progress(lastBytes: int, lastAt: int, softRetries: nat)

  /** How the poll loop ends: the task completed (with its total length), a
      stall was fatal, the task ended in `error` or `removed`, a poll failed,
      or the polls ran out while the task was still running. */
  datatype Watched = Done(totalLength: int) | Stall | Stopped(status: TaskStatus, errorMessage: string) | Broken(message: string) | Polling

  datatype PollStep = Next(progress: Progress) | Stop(watched: Watched)

  /** The poll shows no progress and comes more than `stallTimeoutMs` after
      the stall clock was last restarted. */
  predicate StallDue(pr: Progress, poll: Poll, stallTimeoutMs: int) {
    poll.Status? && poll.completedLength <= pr.lastBytes && poll.now - pr.lastAt > stallTimeoutMs
  }

  /** One turn of the poll loop. Progress (a strictly larger completed
      length) restarts the stall clock; a stall longer than the timeout
      triggers a soft recovery that restarts the clock, unless two were
      already spent, in which case it is fatal. Only then is the task's
      status looked at. */
  function Turn(pr: Progress, poll: Poll, stallTimeoutMs: int): (r: PollStep)
    requires pr.softRetries <= MaxSoftRecoveries
    ensures r.Next? ==> r.progress.softRetries <= MaxSoftRecoveries
    ensures r.Next? ==> r.progress.lastBytes >= pr.lastBytes
    // A failed poll ends the loop.
    ensures poll.RpcError? ==> r == Stop(Broken(poll.message))
    // A stall is fatal exactly when the timeout ran out with no progress
    // and both soft recoveries were spent.
    ensures r == Stop(Stall) <==> StallDue(pr, poll, stallTimeoutMs) && pr.softRetries == MaxSoftRecoveries
    // Otherwise the status decides whether the loop goes on.
    ensures poll.Status? && !(StallDue(pr, poll, stallTimeoutMs) && pr.softRetries == MaxSoftRecoveries) ==>
      if poll.status == Complete then r == Stop(Done(poll.totalLength))
      else if poll.status == Error || poll.status == Removed then r == Stop(Stopped(poll.status, poll.errorMessage))
      else r.Next?
    // Progress restarts the clock at this poll and spends no recovery.
    ensures r.Next? && poll.completedLength > pr.lastBytes ==>
      r.progress == Progress(poll.completedLength, poll.now, pr.softRetries)
    // A timeout without progress spends one recovery and restarts the clock
    // when the task resumes.
    ensures r.Next? && StallDue(pr, poll, stallTimeoutMs) ==>
      r.progress == Progress(pr.lastBytes, poll.resumedAt, pr.softRetries + 1)
    // Within the timeout and without progress nothing changes.
    ensures r.Next? && poll.completedLength <= pr.lastBytes && !StallDue(pr, poll, stallTimeoutMs) ==>
      r.progress == pr
  {
    match poll
    case RpcError(m) => Stop(Broken(m))
    case Status(done, total, st, msg, now, resumedAt) =>
      if done <= pr.lastBytes && now - pr.lastAt > stallTimeoutMs && pr.softRetries >= MaxSoftRecoveries then
        Stop(Stall)
      else
        var next :=
          if done > pr.lastBytes then Progress(done, now, pr.softRetries)
          else if now - pr.lastAt > stallTimeoutMs then Progress(pr.lastBytes, resumedAt, pr.softRetries + 1)
          else pr;
        if st == Complete then Stop(Done(total))
        else if st == Error || st == Removed then Stop(Stopped(st, msg))
        else Next(next)
  }

  /** The poll loop from a given progress record: how it ends, and the
      progress record it ends with. */
  function WatchFrom(pr: Progress, polls: seq<Poll>, stallTimeoutMs: int): (r: (Watched, Progress))
    requires pr.softRetries <= MaxSoftRecoveries
    ensures pr.softRetries <= r.1.softRetries <= MaxSoftRecoveries
    ensures r.1.lastBytes >= pr.lastBytes
    ensures r.0 == Stall ==> r.1.softRetries == MaxSoftRecoveries
    decreases |polls|
  {
    if polls == [] then (Polling, pr)
    else
      match Turn(pr, polls[0], stallTimeoutMs)
      case Stop(w) => (w, pr)
      case Next(p) => WatchFrom(p, polls[1..], stallTimeoutMs)
  }

  function Start0(startedAt: int): Progress {
    Progress(0, startedAt, 0)
  }

  /** The `while (true)` poll loop of `downloadOnce`. */
  method WatchTask(polls: seq<Poll>, startedAt: int, stallTimeoutMs: int) returns (w: Watched)
    ensures w == WatchFrom(Start0(startedAt), polls, stallTimeoutMs).0
  {
    var lastProgressBytes := 0;
    var lastProgressAt := startedAt;
    var stallSoftRetries: nat := 0;
    var i := 0;
    while i < |polls|
      invariant 0 <= i <= |polls|
      invariant stallSoftRetries <= MaxSoftRecoveries
      invariant WatchFrom(Start0(startedAt), polls, stallTimeoutMs).0
             == WatchFrom(Progress(lastProgressBytes, lastProgressAt, stallSoftRetries), polls[i..], stallTimeoutMs).0
    {
      assert polls[i..][1..] == polls[i + 1..];
      match polls[i]
      case RpcError(m) =>
        return Broken(m);
      case Status(done, total, st, msg, now, resumedAt) =>
        if done > lastProgressBytes {
          lastProgressBytes := done;
          lastProgressAt := now;
        } else if now - lastProgressAt > stallTimeoutMs {
          if stallSoftRetries < MaxSoftRecoveries {
            stallSoftRetries := stallSoftRetries + 1;
            lastProgressAt := resumedAt;
          } else {
            return Stall;
          }
        }
        if st == Complete {
          return Done(total);
        }
        if st == Error || st == Removed {
          return Stopped(st, msg);
        }
      i := i + 1;
    }
    return Polling;
  }

  /** A poll that neither progresses nor ends the task, taken after the
      stall timeout has run out. */
  predicate QuietTimeout(poll: Poll, lastBytes: int, since: int, stallTimeoutMs: int) {
    && poll.Status?
    && poll.completedLength <= lastBytes
    && poll.now - since > stallTimeoutMs
    && poll.status !in {Complete, Error, Removed}
  }

  /** Three stalls in a row: the first two are recovered softly, the third
      is fatal. */
  lemma ThirdStallIsFatal(lastBytes: int, startedAt: int, p0: Poll, p1: Poll, p2: Poll, rest: seq<Poll>, stallTimeoutMs: int)
    requires QuietTimeout(p0, lastBytes, startedAt, stallTimeoutMs)
    requires QuietTimeout(p1, lastBytes, p0.resumedAt, stallTimeoutMs)
    requires p2.Status? && p2.completedLength <= lastBytes && p2.now - p1.resumedAt > stallTimeoutMs
    ensures WatchFrom(Progress(lastBytes, startedAt, 0), [p0, p1, p2] + rest, stallTimeoutMs).0 == Stall
  {
    var polls := [p0, p1, p2] + rest;
    var pr1 := Progress(lastBytes, p0.resumedAt, 1);
    var pr2 := Progress(lastBytes, p1.resumedAt, 2);
    assert polls[1..] == [p1, p2] + rest;
    assert polls[1..][1..] == [p2] + rest;
    assert Turn(Progress(lastBytes, startedAt, 0), p0, stallTimeoutMs) == Next(pr1);
    assert Turn(pr1, p1, stallTimeoutMs) == Next(pr2);
    assert Turn(pr2, p2, stallTimeoutMs) == Stop(Stall);
    assert WatchFrom(pr1, polls[1..], stallTimeoutMs) == WatchFrom(pr2, polls[1..][1..], stallTimeoutMs);
  }

  /** Polls that all show progress never end in a stall. */
  lemma {:induction false} ProgressNeverStalls(pr: Progress, polls: seq<Poll>, stallTimeoutMs: int)
    requires pr.softRetries <= MaxSoftRecoveries
    requires forall k :: 0 <= k < |polls| ==> polls[k].Status?
    requires forall k :: 0 <= k < |polls| ==> polls[k].completedLength > pr.lastBytes
    requires forall j, k :: 0 <= j < k < |polls| ==> polls[j].completedLength < polls[k].completedLength
    ensures WatchFrom(pr, polls, stallTimeoutMs).0 != Stall
    decreases |polls|
  {
    if polls != [] {
      match Turn(pr, polls[0], stallTimeoutMs)
      case Stop(w) =>
      case Next(p) =>
        assert p.lastBytes == polls[0].completedLength;
        assert forall k :: 0 <= k < |polls[1..]| ==> polls[1..][k] == polls[k + 1];
        ProgressNeverStalls(p, polls[1..], stallTimeoutMs);
    }
  }

  // ---------------------------------------------------------------------
  // downloadOnce
  // ---------------------------------------------------------------------

  /** The two bucket base URLs. */
  datatype Endpoints = Endpoints(bucket1: string, bucket2: string)

  /** What the outside world answers during one `downloadOnce`. */
  datatype Attempt = Attempt(
    bucketReplies: seq<HeadReply>,   // HEAD probes of the first bucket by getUrl
    existingTask: bool,              // the daemon already has a task for the save path
    urlReplies: seq<HeadReply>,      // HEAD probes of the chosen URL by checkUrl
    addDownloadError: Option<string>,// addDownload threw
    startedAt: int,                  // the clock when polling starts
    polls: seq<Poll>,                // tellStatus answers
    daemon: DiskEffect)              // what the daemon did to the files meanwhile

  /** How an attempt ends once its poll loop has ended, given the files then. */
  function Verdict(w: Watched, files: map<string, nat>, savePath: string, stallTimeoutMs: int): (o: Outcome)
    ensures o == Ok <==> w.Done? && VerifyFileIntegrity(files, savePath, if w.totalLength > 0 then Some(w.totalLength) else None).None?
    ensures o.Err? ==> Retryable(o)
    ensures o == Unfinished <==> w == Polling
  {
    match w
    case Done(total) =>
      (match VerifyFileIntegrity(files, savePath, if total > 0 then Some(total) else None)
       case None => Ok
       case Some(e) => Err(e))
    case Stall => Err(StalledFor(stallTimeoutMs))
    case Stopped(st, msg) => Err(TaskEnded(st, msg))
    case Broken(m) => Err(RpcFailed(m))
    case Polling => Unfinished
  }

  /** A task is running for the save path: the daemon works on the files
      while the poll loop runs, then the verdict is taken. */
  function Tracked(files: map<string, nat>, savePath: string, stallTimeoutMs: int, a: Attempt): (Outcome, map<string, nat>) {
    var after := Applied(files, a.daemon);
    (Verdict(WatchFrom(Start0(a.startedAt), a.polls, stallTimeoutMs).0, after, savePath, stallTimeoutMs), after)
  }

  /** One `downloadOnce`: its outcome and the files afterwards. */
  function AttemptRun(files: map<string, nat>, ep: Endpoints, key: string, outName: string, stallTimeoutMs: int, a: Attempt): (r: (Outcome, map<string, nat>))
  {
    match BucketUrl(ep.bucket1, ep.bucket2, key, a.bucketReplies)
    case None => (Unfinished, files)
    case Some(url) =>
      if url == "" then (Err(NoUrl), files)
      else
        var savePath := SavePath(outName);
        if a.existingTask then Tracked(files, savePath, stallTimeoutMs, a)
        else
          match UrlCheckOf(a.urlReplies)
          case None => (Unfinished, files)
          case Some(Rejected(data)) => (Err(UrlCheckFailed(HeadCheckFailed, data)), files)
          case Some(RequestError(m)) => (Err(UrlCheckFailed(HeadRequestError, RequestErrorReason(m))), files)
          case Some(Passed) =>
            var prepared := Prepared(files, savePath);
            if a.addDownloadError.Some? then (Err(RpcFailed(a.addDownloadError.value)), prepared)
            else Tracked(prepared, savePath, stallTimeoutMs, a)
  }

  /** `downloadOnce`. */
  method DownloadOnce(disk: LocalDisk, ep: Endpoints, key: string, outName: string, stallTimeoutMs: int, a: Attempt)
    returns (outcome: Outcome)
    modifies disk
    ensures (outcome, disk.files) == AttemptRun(old(disk.files), ep, key, outName, stallTimeoutMs, a)
  {
    var url := GetUrl(ep.bucket1, ep.bucket2, key, a.bucketReplies);
    if url.None? {
      return Unfinished;
    }
    if url.value == "" {
      return Err(NoUrl);
    }
    var savePath := SavePath(outName);
    if !a.existingTask {
      var check := CheckUrl(a.urlReplies);
      match check {
        case None =>
          return Unfinished;
        case Some(Rejected(data)) =>
          return Err(UrlCheckFailed(HeadCheckFailed, data));
        case Some(RequestError(m)) =>
          return Err(UrlCheckFailed(HeadRequestError, RequestErrorReason(m)));
        case Some(Passed) =>
      }
      PrepareTargetForDownload(disk, savePath);
      if a.addDownloadError.Some? {
        return Err(RpcFailed(a.addDownloadError.value));
      }
    }
    var watched := WatchTask(a.polls, a.startedAt, stallTimeoutMs);
    disk.Apply(a.daemon);
    outcome := Verdict(watched, disk.files, savePath, stallTimeoutMs);
  }

  /** An attempt that succeeds leaves a non-empty file at the save path. */
  lemma AttemptOkLeavesFile(files: map<string, nat>, ep: Endpoints, key: string, outName: string, stallTimeoutMs: int, a: Attempt)
    ensures var r := AttemptRun(files, ep, key, outName, stallTimeoutMs, a);
      r.0 == Ok ==> SavePath(outName) in r.1 && r.1[SavePath(outName)] > 0
  {
  }

  /** A failed URL check happens only for a new task, and leaves the files
      untouched. */
  lemma UrlCheckFailureLeavesFiles(files: map<string, nat>, ep: Endpoints, key: string, outName: string, stallTimeoutMs: int, a: Attempt)
    ensures var r := AttemptRun(files, ep, key, outName, stallTimeoutMs, a);
      r.0.Err? && r.0.error.UrlCheckFailed? ==> !a.existingTask && r.1 == files
  {
    var w := WatchFrom(Start0(a.startedAt), a.polls, stallTimeoutMs).0;
    var savePath := SavePath(outName);
    var reused := Verdict(w, Applied(files, a.daemon), savePath, stallTimeoutMs);
    var created := Verdict(w, Applied(Prepared(files, savePath), a.daemon), savePath, stallTimeoutMs);
    assert reused.Err? ==> Retryable(reused);
    assert created.Err? ==> Retryable(created);
  }

  /** A task the daemon already runs for the save path is reused: the URL is
      not checked (any replies to that check are irrelevant) and the local
      files are not cleaned up; a new task cleans them up first. */
  lemma ReusedTaskSkipsCheckAndCleanup(files: map<string, nat>, ep: Endpoints, key: string, outName: string,
                                       stallTimeoutMs: int, a: Attempt, otherReplies: seq<HeadReply>)
    requires BucketUrl(ep.bucket1, ep.bucket2, key, a.bucketReplies).Some?
    requires BucketUrl(ep.bucket1, ep.bucket2, key, a.bucketReplies).value != ""
    ensures a.existingTask ==>
      && AttemptRun(files, ep, key, outName, stallTimeoutMs, a) == AttemptRun(files, ep, key, outName, stallTimeoutMs, a.(urlReplies := otherReplies))
      && AttemptRun(files, ep, key, outName, stallTimeoutMs, a).1 == Applied(files, a.daemon)
    ensures !a.existingTask && UrlCheckOf(a.urlReplies) == Some(Passed) ==>
      AttemptRun(files, ep, key, outName, stallTimeoutMs, a).1
        == if a.addDownloadError.Some? then Prepared(files, SavePath(outName))
           else Applied(Prepared(files, SavePath(outName)), a.daemon)
  {
  }

  // ---------------------------------------------------------------------
  // start: the retry loop
  // ---------------------------------------------------------------------

  /** The options of `start`, each possibly absent. */
  datatype StartOptions = StartOptions(retries: Option<int>, backoffMs: Option<int>, stallTimeoutMs: Option<int>)

  datatype Settings = Settings(retries: int, backoffMs: int, stallTimeoutMs: int)

  /** `x ?? d`. */
  function OrDefault(x: Option<int>, d: int): int {
    if x.Some? then x.value else d
  }

  function WithDefaults(o: StartOptions): Settings {
    Settings(OrDefault(o.retries, DefaultRetries), OrDefault(o.backoffMs, DefaultBackoffMs),
             OrDefault(o.stallTimeoutMs, DefaultStallTimeoutMs))
  }

  function Pow2(n: nat): (p: nat)
    ensures p >= 1
  {
    if n == 0 then 1 else 2 * Pow2(n - 1)
  }

  /** The sleeps before the second, third, ... attempt: the backoff doubled
      after each failure. */
  function Backoffs(backoffMs: int, n: nat): (d: seq<int>)
    ensures |d| == n
  {
    seq(n, j requires 0 <= j < n => backoffMs * Pow2(j))
  }

  /** How a run of `start` ends: its outcome, the number of attempts made and
      the sleeps between them. */
  datatype Run = Run(outcome: Outcome, attempts: nat, delays: seq<int>)

  /** The outcome of attempt `k`; an attempt without an answer is still running. */
  function OutcomeAt(outs: seq<Outcome>, k: nat): Outcome {
    if k < |outs| then outs[k] else Unfinished
  }

  /** The retry policy of `start` from attempt number `attempt` (counted
      from 0), given the outcome each attempt would have. The run ends at the
      first attempt that is not a retryable failure, or at the last one
      allowed, with that attempt's outcome; there is one sleep after each
      earlier attempt, doubling from `backoffMs`. */
  function RetryFrom(outs: seq<Outcome>, retries: int, backoffMs: int, attempt: nat): Run
    requires attempt == 0 || attempt < retries
    decreases retries - attempt
  {
    if retries <= attempt then Run(Err(FailedAfterRetries), 0, [])
    else
      match OutcomeAt(outs, attempt)
      case Ok => Run(Ok, attempt + 1, [])
      case Unfinished => Run(Unfinished, attempt + 1, [])
      case Err(e) =>
        if e.UrlCheckFailed? || attempt + 1 >= retries then Run(Err(e), attempt + 1, [])
        else
          var rest := RetryFrom(outs, retries, backoffMs, attempt + 1);
          Run(rest.outcome, rest.attempts, [backoffMs * Pow2(attempt)] + rest.delays)
  }

  /** What a run of the policy is: with no attempt allowed, no attempt and
      "Download failed after retries"; otherwise at most `retries` attempts,
      every one but the last a retryable failure, the last one either not a
      retryable failure or the last allowed, its outcome the run's outcome,
      and one doubling sleep after each earlier attempt. */
  lemma {:induction false} RetryFromSpec(outs: seq<Outcome>, retries: int, backoffMs: int, attempt: nat)
    requires attempt == 0 || attempt < retries
    ensures var r := RetryFrom(outs, retries, backoffMs, attempt);
      && (retries <= attempt ==> r == Run(Err(FailedAfterRetries), 0, []))
      && (attempt < retries ==>
        && attempt < r.attempts <= retries
        && r.outcome == OutcomeAt(outs, r.attempts - 1)
        && (forall j :: attempt <= j < r.attempts - 1 ==> Retryable(OutcomeAt(outs, j)))
        && (r.attempts == retries || !Retryable(r.outcome))
        && |r.delays| == r.attempts - 1 - attempt
        && (forall j :: 0 <= j < |r.delays| ==> r.delays[j] == backoffMs * Pow2(attempt + j)))
    decreases retries - attempt
  {
    if attempt < retries {
      var o := OutcomeAt(outs, attempt);
      if Retryable(o) && attempt + 1 < retries {
        RetryFromSpec(outs, retries, backoffMs, attempt + 1);
      }
    }
  }

  /** The run stops exactly at attempt `k` when every earlier attempt failed
      retryably and `k` is not a retryable failure or is the last allowed:
      `k + 1` attempts, the outcome of attempt `k`, and `k` doubling sleeps.
      In particular a `URL_CHECK_FAILED` error is rethrown at once, and the
      last attempt's error is rethrown without a sleep. */
  lemma RetryStopsAt(outs: seq<Outcome>, retries: int, backoffMs: int, k: nat)
    requires k < retries
    requires forall j :: 0 <= j < k ==> Retryable(OutcomeAt(outs, j))
    requires k == retries - 1 || !Retryable(OutcomeAt(outs, k))
    ensures RetryFrom(outs, retries, backoffMs, 0) == Run(OutcomeAt(outs, k), k + 1, Backoffs(backoffMs, k))
  {
    var r := RetryFrom(outs, retries, backoffMs, 0);
    RetryFromSpec(outs, retries, backoffMs, 0);
    var last: nat := r.attempts - 1;
    assert last < k ==> Retryable(OutcomeAt(outs, last));
    assert last > k ==> Retryable(OutcomeAt(outs, k));
    assert last == k;
    assert r.delays == Backoffs(backoffMs, k);
  }

  /** `start` returns true iff some attempt succeeds before any attempt ends
      otherwise than in a retryable failure, within the allowed number. */
  lemma RetrySucceedsIff(outs: seq<Outcome>, retries: int, backoffMs: int)
    ensures RetryFrom(outs, retries, backoffMs, 0).outcome == Ok <==>
      exists k :: 0 <= k < retries && OutcomeAt(outs, k) == Ok
        && forall j :: 0 <= j < k ==> Retryable(OutcomeAt(outs, j))
  {
    var r := RetryFrom(outs, retries, backoffMs, 0);
    RetryFromSpec(outs, retries, backoffMs, 0);
    if r.outcome == Ok {
      assert 0 <= r.attempts - 1 < retries && OutcomeAt(outs, r.attempts - 1) == Ok;
    }
    if k :| 0 <= k < retries && OutcomeAt(outs, k) == Ok && forall j :: 0 <= j < k ==> Retryable(OutcomeAt(outs, j)) {
      RetryStopsAt(outs, retries, backoffMs, k);
    }
  }

  /** The attempts of a run, each on the files the previous one left: the
      outcome of each and the files after it. */
  function Trace(files: map<string, nat>, ep: Endpoints, key: string, outName: string, stallTimeoutMs: int, attempts: seq<Attempt>)
    : (t: seq<(Outcome, map<string, nat>)>)
    ensures |t| == |attempts|
    decreases |attempts|
  {
    if attempts == [] then []
    else
      var first := AttemptRun(files, ep, key, outName, stallTimeoutMs, attempts[0]);
      [first] + Trace(first.1, ep, key, outName, stallTimeoutMs, attempts[1..])
  }

  function Outcomes(t: seq<(Outcome, map<string, nat>)>): (outs: seq<Outcome>)
    ensures |outs| == |t|
    ensures forall k :: 0 <= k < |t| ==> outs[k] == t[k].0
  {
    seq(|t|, k requires 0 <= k < |t| => t[k].0)
  }

  /** The files after the first `n` attempts of a trace. */
  function FilesAfter(files: map<string, nat>, t: seq<(Outcome, map<string, nat>)>, n: nat): map<string, nat>
    requires n <= |t|
  {
    if n == 0 then files else t[n - 1].1
  }

  /** Attempt `k` of a trace runs on the files the first `k` attempts left. */
  lemma {:induction false} TraceAt(files: map<string, nat>, ep: Endpoints, key: string, outName: string, stallTimeoutMs: int,
                                   attempts: seq<Attempt>, k: nat)
    requires k < |attempts|
    ensures var t := Trace(files, ep, key, outName, stallTimeoutMs, attempts);
      t[k] == AttemptRun(FilesAfter(files, t, k), ep, key, outName, stallTimeoutMs, attempts[k])
    decreases k
  {
    if k > 0 {
      var first := AttemptRun(files, ep, key, outName, stallTimeoutMs, attempts[0]);
      TraceAt(first.1, ep, key, outName, stallTimeoutMs, attempts[1..], k - 1);
    }
  }

  /** An attempt run on the files the trace has reached gives the trace's
      next outcome and files. */
  lemma AttemptStep(files0: map<string, nat>, ep: Endpoints, key: string, outName: string, stallTimeoutMs: int,
                    attempts: seq<Attempt>, k: nat, before: map<string, nat>, result: Outcome, after: map<string, nat>)
    requires k < |attempts|
    requires before == FilesAfter(files0, Trace(files0, ep, key, outName, stallTimeoutMs, attempts), k)
    requires (result, after) == AttemptRun(before, ep, key, outName, stallTimeoutMs, attempts[k])
    ensures var t := Trace(files0, ep, key, outName, stallTimeoutMs, attempts);
      Outcomes(t)[k] == result && FilesAfter(files0, t, k + 1) == after
  {
    TraceAt(files0, ep, key, outName, stallTimeoutMs, attempts, k);
  }

  /** One step of the retry policy. */
  lemma RetryStep(outs: seq<Outcome>, retries: int, backoffMs: int, attempt: nat)
    requires attempt < retries
    ensures var o := OutcomeAt(outs, attempt);
      && (!Retryable(o) || attempt + 1 >= retries ==> RetryFrom(outs, retries, backoffMs, attempt) == Run(o, attempt + 1, []))
      && (Retryable(o) && attempt + 1 < retries ==>
            RetryFrom(outs, retries, backoffMs, attempt)
              == Joined([backoffMs * Pow2(attempt)], RetryFrom(outs, retries, backoffMs, attempt + 1)))
  {
  }

  /** A retryable failure that is not the last attempt allowed adds one
      sleep and moves on to the next attempt. */
  lemma RetryGoesOn(outs: seq<Outcome>, retries: int, backoffMs: int, attempt: nat, delays: seq<int>)
    requires attempt + 1 < retries && Retryable(OutcomeAt(outs, attempt))
    requires RetryFrom(outs, retries, backoffMs, 0) == Joined(delays, RetryFrom(outs, retries, backoffMs, attempt))
    ensures RetryFrom(outs, retries, backoffMs, 0)
      == Joined(delays + [backoffMs * Pow2(attempt)], RetryFrom(outs, retries, backoffMs, attempt + 1))
  {
    RetryStep(outs, retries, backoffMs, attempt);
    var rest := RetryFrom(outs, retries, backoffMs, attempt + 1);
    assert delays + ([backoffMs * Pow2(attempt)] + rest.delays) == (delays + [backoffMs * Pow2(attempt)]) + rest.delays;
  }

  /** Any other outcome, or the last attempt allowed, ends the run with
      that outcome and the sleeps made so far. */
  lemma RetryStops(outs: seq<Outcome>, retries: int, backoffMs: int, attempt: nat, delays: seq<int>)
    requires attempt < retries && (!Retryable(OutcomeAt(outs, attempt)) || attempt + 1 >= retries)
    requires RetryFrom(outs, retries, backoffMs, 0) == Joined(delays, RetryFrom(outs, retries, backoffMs, attempt))
    ensures RetryFrom(outs, retries, backoffMs, 0) == Run(OutcomeAt(outs, attempt), attempt + 1, delays)
  {
    RetryStep(outs, retries, backoffMs, attempt);
    assert delays + [] == delays;
  }

  /** The run `start` makes with the given options and attempt answers. */
  function StartRun(files: map<string, nat>, ep: Endpoints, key: string, outName: string, options: StartOptions, attempts: seq<Attempt>): Run {
    var s := WithDefaults(options);
    RetryFrom(Outcomes(Trace(files, ep, key, outName, s.stallTimeoutMs, attempts)), s.retries, s.backoffMs, 0)
  }

  /** The files after `start`: those left by its last attempt. */
  function StartFiles(files: map<string, nat>, ep: Endpoints, key: string, outName: string, options: StartOptions, attempts: seq<Attempt>): map<string, nat> {
    var t := Trace(files, ep, key, outName, WithDefaults(options).stallTimeoutMs, attempts);
    var n := StartRun(files, ep, key, outName, options, attempts).attempts;
    FilesAfter(files, t, if n <= |t| then n else |t|)
  }

  function Joined(delays: seq<int>, r: Run): Run {
    Run(r.outcome, r.attempts, delays + r.delays)
  }

  /** Attempt `k` of `start`, on the files the earlier attempts left. */
  method NextAttempt(disk: LocalDisk, ep: Endpoints, key: string, outName: string, stallTimeoutMs: int,
                     attempts: seq<Attempt>, ghost files0: map<string, nat>, k: nat)
    returns (result: Outcome)
    requires k < |attempts|
    requires disk.files == FilesAfter(files0, Trace(files0, ep, key, outName, stallTimeoutMs, attempts), k)
    modifies disk
    ensures var t := Trace(files0, ep, key, outName, stallTimeoutMs, attempts);
      result == Outcomes(t)[k] && disk.files == FilesAfter(files0, t, k + 1)
  {
    ghost var before := disk.files;
    result := DownloadOnce(disk, ep, key, outName, stallTimeoutMs, attempts[k]);
    AttemptStep(files0, ep, key, outName, stallTimeoutMs, attempts, k, before, result, disk.files);
  }

  /** `start`. An attempt index without an answer is an attempt still running. */
  method Start(disk: LocalDisk, ep: Endpoints, key: string, outName: string, options: StartOptions, attempts: seq<Attempt>)
    returns (outcome: Outcome, delays: seq<int>)
    modifies disk
    ensures var run := StartRun(old(disk.files), ep, key, outName, options, attempts);
      outcome == run.outcome && delays == run.delays
    ensures disk.files == StartFiles(old(disk.files), ep, key, outName, options, attempts)
  {
    var s := WithDefaults(options);
    var retries := s.retries;
    var backoffMs := s.backoffMs;
    ghost var files0 := disk.files;
    ghost var t := Trace(files0, ep, key, outName, s.stallTimeoutMs, attempts);
    ghost var outs := Outcomes(t);
    var attempt: nat := 0;
    delays := [];
    outcome := Err(FailedAfterRetries);
    var running := 0 < retries;
    ghost var made: nat := 0;
    while running
      invariant attempt <= |attempts|
      invariant running ==> attempt < retries
      invariant running ==> disk.files == FilesAfter(files0, t, attempt)
      invariant running ==> RetryFrom(outs, retries, backoffMs, 0) == Joined(delays, RetryFrom(outs, retries, backoffMs, attempt))
      invariant !running ==> RetryFrom(outs, retries, backoffMs, 0) == Run(outcome, made, delays)
      invariant !running ==> disk.files == FilesAfter(files0, t, if made <= |t| then made else |t|)
      decreases retries - attempt, running
    {
      if attempt == |attempts| {
        // the attempt is under way and has not returned
        RetryStops(outs, retries, backoffMs, attempt, delays);
        outcome := Unfinished;
        made := attempt + 1;
        running := false;
      } else {
        var result := NextAttempt(disk, ep, key, outName, s.stallTimeoutMs, attempts, files0, attempt);
        assert result == OutcomeAt(outs, attempt);
        attempt := attempt + 1;
        if !Retryable(result) || attempt >= retries {
          RetryStops(outs, retries, backoffMs, attempt - 1, delays);
          outcome := result;
          made := attempt;
          running := false;
        } else {
          // a task the daemon still holds for the path is stopped (outside the model)
          RetryGoesOn(outs, retries, backoffMs, attempt - 1, delays);
          var delay := backoffMs * Pow2(attempt - 1);
          delays := delays + [delay];
        }
      }
    }
  }

  /** When `start` returns true, the save path holds a non-empty file. */
  lemma StartOkLeavesFile(files: map<string, nat>, ep: Endpoints, key: string, outName: string, options: StartOptions, attempts: seq<Attempt>)
    ensures StartRun(files, ep, key, outName, options, attempts).outcome == Ok ==>
      var after := StartFiles(files, ep, key, outName, options, attempts);
      SavePath(outName) in after && after[SavePath(outName)] > 0
  {
    var s := WithDefaults(options);
    var t := Trace(files, ep, key, outName, s.stallTimeoutMs, attempts);
    forall k | 0 <= k < |t|
      ensures t[k].0 == Ok ==> SavePath(outName) in t[k].1 && t[k].1[SavePath(outName)] > 0
    {
      TraceOkLeavesFile(files, ep, key, outName, s.stallTimeoutMs, attempts, k);
    }
    RunOkLeavesFile(files, t, s.retries, s.backoffMs, SavePath(outName));
  }

  /** When every successful attempt of a trace leaves a non-empty file at
      `path`, so does a successful run of the retry policy over it. */
  lemma RunOkLeavesFile(files: map<string, nat>, t: seq<(Outcome, map<string, nat>)>, retries: int, backoffMs: int, path: string)
    requires forall k :: 0 <= k < |t| ==> t[k].0 == Ok ==> path in t[k].1 && t[k].1[path] > 0
    ensures var r := RetryFrom(Outcomes(t), retries, backoffMs, 0);
      r.outcome == Ok ==>
        var after := FilesAfter(files, t, if r.attempts <= |t| then r.attempts else |t|);
        path in after && after[path] > 0
  {
    var r := RetryFrom(Outcomes(t), retries, backoffMs, 0);
    RetryFromSpec(Outcomes(t), retries, backoffMs, 0);
    if r.outcome == Ok {
      var k := r.attempts - 1;
      assert OutcomeAt(Outcomes(t), k) == Ok;
      assert k < |t|;
    }
  }

  /** An attempt of a trace that succeeds leaves a non-empty file at the save path. */
  lemma TraceOkLeavesFile(files: map<string, nat>, ep: Endpoints, key: string, outName: string, stallTimeoutMs: int,
                          attempts: seq<Attempt>, k: nat)
    requires k < |attempts|
    ensures var t := Trace(files, ep, key, outName, stallTimeoutMs, attempts);
      t[k].0 == Ok ==> SavePath(outName) in t[k].1 && t[k].1[SavePath(outName)] > 0
  {
    var t := Trace(files, ep, key, outName, stallTimeoutMs, attempts);
    TraceAt(files, ep, key, outName, stallTimeoutMs, attempts, k);
    AttemptOkLeavesFile(FilesAfter(files, t, k), ep, key, outName, stallTimeoutMs, attempts[k]);
  }
}
