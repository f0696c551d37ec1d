/** One client's conversation: the messages it prints, and the server reading them back. */
module Framing {
  import opened Util
  import opened Decimal
  import opened Wire
  import P = Protocol

  const MAX_TEXT_BYTES: nat := 1024 * 1024
  const MAX_FILENAME_BYTES: nat := 255
  const U64: nat := U64_MAX + 1

  datatype Sort = TextSort | FileSort | DecodeSort | ValidateSort | CapacitySort

  /** What the server has done with one command line. */
  datatype Outcome =
    | Closed                                                           // no line: the session ends
    | Received                                                         // a payload has arrived; the command goes on
    | Enqueued(sort: Sort, png: string, name: string, extra: string)   // a job with these received contents
    | Discarded(whole: bool)                                           // over-long file name: payload skipped
    | InvalidPngSize
    | ExtraTooLarge
    | UploadFailed                                                     // the stream ended inside a payload
    | Other(request: P.Request)                                        // no payload is read

  // ----- What the server does, as a function of the bytes still to come

  /** Receiving `size` bytes: what arrives, if all of it does, and what is left. */
  function Take(s: string, size: nat): (r: (bool, string, string))
    ensures |r.2| <= |s|
  {
    if size <= |s| then (true, s[..size], s[size..]) else (false, "", "")
  }

  function TakePng(s: string, size: nat, maxUpload: nat): (r: (Outcome, string, string))
    ensures |r.2| <= |s|
  {
    if size == 0 || size > maxUpload then (InvalidPngSize, "", s)
    else
      var (ok, png, rest) := Take(s, size);
      (if ok then Received else UploadFailed, png, rest)
  }

  function TakeExtra(s: string, size: nat, max: nat): (r: (Outcome, string, string))
    ensures |r.2| <= |s|
  {
    if size > max then (ExtraTooLarge, "", s)
    else
      var (ok, extra, rest) := Take(s, size);
      (if ok then Received else UploadFailed, extra, rest)
  }

  /** A PNG and then a text. */
  function TextPayloads(pngSize: nat, textSize: nat, s: string, maxUpload: nat): (r: (Outcome, string))
    ensures |r.1| <= |s|
  {
    var (o1, png, s1) := TakePng(s, pngSize, maxUpload);
    if o1 != Received then (o1, s1)
    else
      var (o2, text, s2) := TakeExtra(s1, textSize, MAX_TEXT_BYTES);
      (if o2 != Received then o2 else Enqueued(TextSort, png, "", text), s2)
  }

  /** A PNG, a file name and then a file. */
  function FilePayloads(pngSize: nat, nameSize: nat, fileSize: nat, s: string, maxUpload: nat): (r: (Outcome, string))
    ensures |r.1| <= |s|
  {
    var (o1, png, s1) := TakePng(s, pngSize, maxUpload);
    if o1 != Received then (o1, s1)
    else
      var (ok, name, s2) := Take(s1, nameSize);
      if !ok then (UploadFailed, s2)
      else
        var (o3, file, s3) := TakeExtra(s2, fileSize, maxUpload);
        (if o3 != Received then o3 else Enqueued(FileSort, png, P.CStr(name), file), s3)
  }

  /** A PNG alone. */
  function PngPayload(sort: Sort, pngSize: nat, s: string, maxUpload: nat): (r: (Outcome, string))
    ensures |r.1| <= |s|
  {
    var (o, png, s1) := TakePng(s, pngSize, maxUpload);
    (if o != Received then o else Enqueued(sort, png, "", ""), s1)
  }

  /** Skipping a payload of the given size, which the server computes modulo 2^64. */
  function Skip(size: nat, s: string): (r: (Outcome, string))
    ensures |r.1| <= |s|
  {
    (Discarded(size % U64 <= |s|), s[Min(size % U64, |s|)..])
  }

  /** The payloads of a user's upload command, and the job they make. */
  function Payloads(request: P.Request, s: string, maxUpload: nat): (r: (Outcome, string))
    ensures |r.1| <= |s|
  {
    match request.command
    case EncodeText => TextPayloads(request.size1, request.size2, s, maxUpload)
    case EncodeFile =>
      if request.size2 > MAX_FILENAME_BYTES then Skip(request.size1 + request.size2 + request.size3, s)
      else FilePayloads(request.size1, request.size2, request.size3, s, maxUpload)
    case Decode => PngPayload(DecodeSort, request.size1, s, maxUpload)
    case Validate => PngPayload(ValidateSort, request.size1, s, maxUpload)
    case Capacity => PngPayload(CapacitySort, request.size1, s, maxUpload)
    case _ => (Other(request), s)
  }

  /** One command of a session. An administrator's commands have no payloads: an upload command is
      answered as unknown, and what follows its line stays on the stream. */
  ghost function Handle(s: string, admin: bool, maxUpload: nat): (r: (Outcome, string))
    ensures r.0 != Closed ==> |r.1| < |s|
  {
    var n := LineLength(s, P.BUFFER_SIZE - 1);
    if n == 0 then (Closed, s)
    else
      var request := P.Parsed(s[..n]);
      if admin then (Other(request), s[n..]) else Payloads(request, s[n..], maxUpload)
  }

  /** The connection is closed: by its end, by a hard error, or at the client's request. */
  predicate EndsSession(o: Outcome) {
    o == Closed || (o.Other? && o.request.command == P.Quit)
  }

  /** A whole session: the outcomes of its commands, and what is left unread when it ends. */
  ghost function Session(s: string, admin: bool, maxUpload: nat): (seq<Outcome>, string)
    decreases |s|
  {
    var (o, s1) := Handle(s, admin, maxUpload);
    if EndsSession(o) then ([o], s1)
    else
      var (os, s2) := Session(s1, admin, maxUpload);
      ([o] + os, s2)
  }

  // ----- The server's code. A hard error during a call ends in a failure outcome; otherwise the
  // outcome and what remains unread are those of the functions above.

  /** What the server makes of a command during which the connection or the disk failed: no job. */
  predicate Failure(o: Outcome) {
    o == Closed || o == UploadFailed || o == Discarded(false)
  }

  method ReceivePng(s: Stream, size: nat, maxUpload: nat) returns (o: Outcome, png: string)
    modifies s
    ensures s.failures <= old(s.failures)
    ensures if s.failures == old(s.failures) then (o, png, s.pending) == TakePng(old(s.pending), size, maxUpload)
            else o == UploadFailed
  {
    if size == 0 || size > maxUpload {
      return InvalidPngSize, "";
    }
    var ok;
    ok, png := ReceiveToFile(s, size);
    o := if ok then Received else UploadFailed;
  }

  method ReceiveExtra(s: Stream, size: nat, max: nat) returns (o: Outcome, extra: string)
    modifies s
    ensures s.failures <= old(s.failures)
    ensures if s.failures == old(s.failures) then (o, extra, s.pending) == TakeExtra(old(s.pending), size, max)
            else o == UploadFailed
  {
    if size > max {
      return ExtraTooLarge, "";
    }
    if size == 0 {
      var broken := s.Fails();
      return if broken then UploadFailed else Received, "";
    }
    var ok;
    ok, extra := ReceiveToFile(s, size);
    o := if ok then Received else UploadFailed;
  }

  method HandleEncodeText(s: Stream, request: P.Request, maxUpload: nat) returns (o: Outcome)
    modifies s
    ensures s.failures <= old(s.failures)
    ensures if s.failures == old(s.failures)
      then (o, s.pending) == TextPayloads(request.size1, request.size2, old(s.pending), maxUpload)
      else Failure(o)
  {
    hide TakePng, TakeExtra;
    var o1, png := ReceivePng(s, request.size1, maxUpload);
    if o1 != Received {
      return o1;
    }
    var o2, text := ReceiveExtra(s, request.size2, MAX_TEXT_BYTES);
    return if o2 != Received then o2 else Enqueued(TextSort, png, "", text);
  }

  method ReceiveName(s: Stream, size: nat) returns (ok: bool, name: string)
    modifies s
    ensures s.failures <= old(s.failures)
    ensures if s.failures == old(s.failures) then (ok, name, s.pending) == Take(old(s.pending), size) else !ok
  {
    hide EndOf;
    ok, name := ReadExact(s, size);
    if |name| != size {
      ok, name := false, "";
    }
  }

  /** The size is computed in 64 bits. */
  method SkipPayload(s: Stream, size: nat) returns (o: Outcome)
    modifies s
    ensures s.failures <= old(s.failures)
    ensures if s.failures == old(s.failures) then (o, s.pending) == Skip(size, old(s.pending)) else Failure(o)
  {
    hide EndOf;
    var whole := DiscardExact(s, size % U64);
    return Discarded(whole);
  }

  method ReceiveFileParts(s: Stream, request: P.Request, maxUpload: nat) returns (o: Outcome)
    modifies s
    ensures s.failures <= old(s.failures)
    ensures if s.failures == old(s.failures)
      then (o, s.pending) == FilePayloads(request.size1, request.size2, request.size3, old(s.pending), maxUpload)
      else Failure(o)
  {
    hide TakePng, Take, TakeExtra, P.CStr;
    var o1, png := ReceivePng(s, request.size1, maxUpload);
    if o1 != Received {
      return o1;
    }
    var ok, name := ReceiveName(s, request.size2);
    if !ok {
      return UploadFailed;
    }
    var o3, file := ReceiveExtra(s, request.size3, maxUpload);
    return if o3 != Received then o3 else Enqueued(FileSort, png, P.CStr(name), file);
  }

  method HandleEncodeFile(s: Stream, request: P.Request, maxUpload: nat) returns (o: Outcome)
    requires request.command == P.EncodeFile
    modifies s
    ensures s.failures <= old(s.failures)
    ensures if s.failures == old(s.failures) then (o, s.pending) == Payloads(request, old(s.pending), maxUpload)
            else Failure(o)
  {
    hide FilePayloads, Skip, Failure;
    if request.size2 > MAX_FILENAME_BYTES {
      o := SkipPayload(s, request.size1 + request.size2 + request.size3);
    } else {
      o := ReceiveFileParts(s, request, maxUpload);
    }
  }

  method HandlePng(s: Stream, sort: Sort, request: P.Request, maxUpload: nat) returns (o: Outcome)
    modifies s
    ensures s.failures <= old(s.failures)
    ensures if s.failures == old(s.failures)
      then (o, s.pending) == PngPayload(sort, request.size1, old(s.pending), maxUpload)
      else Failure(o)
  {
    hide TakePng;
    var o1, png := ReceivePng(s, request.size1, maxUpload);
    return if o1 != Received then o1 else Enqueued(sort, png, "", "");
  }

  /** Reads one command line and its payloads. However the stream is cut into reads, the outcome
      and what remains unread are those of Handle; and a hard error on the way makes no job. */
  method HandleClientCommand(s: Stream, admin: bool, maxUpload: nat) returns (o: Outcome)
    modifies s
    ensures s.failures <= old(s.failures)
    ensures if s.failures == old(s.failures) then (o, s.pending) == Handle(old(s.pending), admin, maxUpload)
            else o == Closed || o == UploadFailed || o == Discarded(false)
  {
    hide P.Parsed, TextPayloads, FilePayloads, PngPayload, LineLength, EndOf;
    var ok, line := ReadLine(s, P.BUFFER_SIZE);
    if !ok || line == "" {
      return Closed;
    }
    var request := P.ParseLine(line);
    if admin {
      return Other(request);
    }
    match request.command
    case EncodeText => o := HandleEncodeText(s, request, maxUpload);
    case EncodeFile => o := HandleEncodeFile(s, request, maxUpload);
    case Decode => o := HandlePng(s, DecodeSort, request, maxUpload);
    case Validate => o := HandlePng(s, ValidateSort, request, maxUpload);
    case Capacity => o := HandlePng(s, CapacitySort, request, maxUpload);
    case _ => return Other(request);
  }

  lemma SessionStep(s: string, admin: bool, maxUpload: nat)
    ensures var (o, s1) := Handle(s, admin, maxUpload);
      Session(s, admin, maxUpload) ==
        if EndsSession(o) then ([o], s1)
        else ([o] + Session(s1, admin, maxUpload).0, Session(s1, admin, maxUpload).1)
  {
    hide Handle;
  }

  lemma Regrouped(os: seq<Outcome>, o: Outcome, more: seq<Outcome>)
    ensures os + ([o] + more) == (os + [o]) + more && [] + more == more
  {
  }

  /** The commands of one session, up to the one that ends it. */
  method ServeSession(s: Stream, admin: bool, maxUpload: nat) returns (os: seq<Outcome>)
    modifies s
    ensures s.failures <= old(s.failures)
    ensures s.failures == old(s.failures) ==> (os, s.pending) == Session(old(s.pending), admin, maxUpload)
  {
    hide Handle, Failure, Session, EndsSession;
    os := [];
    var ended := false;
    ghost var all := Session(s.pending, admin, maxUpload);
    Regrouped([], Closed, all.0);
    while !ended
      invariant s.failures <= old(s.failures)
      invariant s.failures == old(s.failures) && ended ==> (os, s.pending) == all
      invariant s.failures == old(s.failures) && !ended ==>
        var r := Session(s.pending, admin, maxUpload); (os + r.0, r.1) == all
      decreases !ended, s.failures, |s.pending|
    {
      SessionStep(s.pending, admin, maxUpload);
      var o := HandleClientCommand(s, admin, maxUpload);
      ClosedEnds(o);
      ended := EndsSession(o);
      Regrouped(os, o, Session(s.pending, admin, maxUpload).0);
      os := os + [o];
    }
  }

  lemma ClosedEnds(o: Outcome)
    ensures o == Closed ==> EndsSession(o)
  {
  }

  // ----- Client messages

  datatype Message =
    | EncodeTextMsg(png: string, text: string)
    | EncodeFileMsg(png: string, name: string, file: string)
    | DecodeMsg(png: string)
    | ValidateMsg(png: string)
    | CapacityMsg(png: string)
    | PingMsg
    | QuitMsg
    | StatusMsg(id: nat)
    | ResultMsg(id: nat)
    | MetaMsg(id: nat)
    | DownloadMsg(id: nat)
    | CancelMsg(id: nat)

  /** The command of a message, and the arguments the client prints behind its word. */
  function CommandFor(m: Message): P.Command {
    match m
    case EncodeTextMsg(_, _) => P.EncodeText
    case EncodeFileMsg(_, _, _) => P.EncodeFile
    case DecodeMsg(_) => P.Decode
    case ValidateMsg(_) => P.Validate
    case CapacityMsg(_) => P.Capacity
    case PingMsg => P.Ping
    case QuitMsg => P.Quit
    case StatusMsg(_) => P.Status
    case ResultMsg(_) => P.Result
    case MetaMsg(_) => P.Meta
    case DownloadMsg(_) => P.Download
    case CancelMsg(_) => P.Cancel
  }

  function Arguments(m: Message): string {
    match m
    case EncodeTextMsg(png, text) => Print(|png|) + (" " + Print(|text|))
    case EncodeFileMsg(png, name, file) => Print(|png|) + (" " + (Print(|name|) + (" " + Print(|file|))))
    case DecodeMsg(png) => Print(|png|)
    case ValidateMsg(png) => Print(|png|)
    case CapacityMsg(png) => Print(|png|)
    case PingMsg => ""
    case QuitMsg => ""
    case StatusMsg(id) => Print(id)
    case ResultMsg(id) => Print(id)
    case MetaMsg(id) => Print(id)
    case DownloadMsg(id) => Print(id)
    case CancelMsg(id) => Print(id)
  }

  /** The command line the client prints, without its newline. */
  function Header(m: Message): string {
    P.Word(CommandFor(m)) + Arguments(m)
  }

  function Payload(m: Message): string {
    match m
    case EncodeTextMsg(png, text) => png + text
    case EncodeFileMsg(png, name, file) => png + name + file
    case DecodeMsg(png) => png
    case ValidateMsg(png) => png
    case CapacityMsg(png) => png
    case _ => ""
  }

  function Printed(m: Message): string {
    Header(m) + "\n" + Payload(m)
  }

  /** What the header says. */
  function Meant(m: Message): P.Request {
    match m
    case EncodeTextMsg(png, text) => P.Request(P.EncodeText, 0, |png|, |text|, 0, "")
    case EncodeFileMsg(png, name, file) => P.Request(P.EncodeFile, 0, |png|, |name|, |file|, "")
    case DecodeMsg(png) => P.BLANK.(command := P.Decode, size1 := |png|)
    case ValidateMsg(png) => P.BLANK.(command := P.Validate, size1 := |png|)
    case CapacityMsg(png) => P.BLANK.(command := P.Capacity, size1 := |png|)
    case PingMsg => P.BLANK.(command := P.Ping)
    case QuitMsg => P.BLANK.(command := P.Quit)
    case StatusMsg(id) => P.BLANK.(command := P.Status, jobId := id)
    case ResultMsg(id) => P.BLANK.(command := P.Result, jobId := id)
    case MetaMsg(id) => P.BLANK.(command := P.Meta, jobId := id)
    case DownloadMsg(id) => P.BLANK.(command := P.Download, jobId := id)
    case CancelMsg(id) => P.BLANK.(command := P.Cancel, jobId := id)
  }

  /** Every number of the message fits 64 bits. */
  predicate Fits(m: Message) {
    match m
    case EncodeTextMsg(png, text) => |png| <= U64_MAX && |text| <= U64_MAX
    case EncodeFileMsg(png, name, file) => |png| <= U64_MAX && |name| <= U64_MAX && |file| <= U64_MAX
    case DecodeMsg(png) => |png| <= U64_MAX
    case ValidateMsg(png) => |png| <= U64_MAX
    case CapacityMsg(png) => |png| <= U64_MAX
    case PingMsg => true
    case QuitMsg => true
    case StatusMsg(id) => id <= U64_MAX
    case ResultMsg(id) => id <= U64_MAX
    case MetaMsg(id) => id <= U64_MAX
    case DownloadMsg(id) => id <= U64_MAX
    case CancelMsg(id) => id <= U64_MAX
  }

  /** Within the server's size limits; or a file whose over-long name makes the server skip the
      whole message, provided its sizes add up below 2^64. */
  predicate Accepted(m: Message, maxUpload: nat) {
    Fits(m) &&
    match m
    case EncodeTextMsg(png, text) => 0 < |png| <= maxUpload && |text| <= MAX_TEXT_BYTES
    case EncodeFileMsg(png, name, file) =>
      if |name| > MAX_FILENAME_BYTES then |png| + |name| + |file| < U64
      else 0 < |png| <= maxUpload && |file| <= maxUpload
    case DecodeMsg(png) => 0 < |png| <= maxUpload
    case ValidateMsg(png) => 0 < |png| <= maxUpload
    case CapacityMsg(png) => 0 < |png| <= maxUpload
    case _ => true
  }

  /** What the server must make of an accepted message. The file name is kept as a C string. */
  function Expected(m: Message): Outcome {
    match m
    case EncodeTextMsg(png, text) => Enqueued(TextSort, png, "", text)
    case EncodeFileMsg(png, name, file) =>
      if |name| > MAX_FILENAME_BYTES then Discarded(true) else Enqueued(FileSort, png, P.CStr(name), file)
    case DecodeMsg(png) => Enqueued(DecodeSort, png, "", "")
    case ValidateMsg(png) => Enqueued(ValidateSort, png, "", "")
    case CapacityMsg(png) => Enqueued(CapacitySort, png, "", "")
    case _ => Other(Meant(m))
  }
}
