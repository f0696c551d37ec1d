/** The server recovers a client's messages exactly, however the stream is cut into reads. */
module FramingTheorems {
  import opened Decimal
  import opened Wire
  import opened Framing
  import P = Protocol

  // ----- Header lines

  lemma PlainNumber(n: nat)
    requires n <= U64_MAX
    ensures P.Plain(Print(n)) && 0 < |Print(n)| <= 20
  {
    P.PrintIsPlain(n);
    P.PrintedU64IsShort(n);
  }

  lemma LooseNumber(n: nat)
    requires n <= U64_MAX
    ensures P.Loose(Print(n)) == n
  {
    hide Strtoull, Print;
    StrtoullPrinted(n, "");
    assert Print(n) + "" == Print(n);
  }

  lemma OneNumber(n: nat)
    requires n <= U64_MAX
    ensures P.Numbers(Print(n), 1) == [n]
  {
    hide Strtoull, Print;
    StrtoullPrinted(n, "");
    assert Print(n) + "" == Print(n);
    assert P.Numbers(P.SkipBlanks(""), 0) == [];
  }

  lemma MoreNumbers(n: nat, more: string, count: nat)
    requires n <= U64_MAX && more != "" && IsDigit(more[0])
    ensures P.Numbers(Print(n) + (" " + more), count + 1) == [n] + P.Numbers(more, count)
  {
    hide Strtoull, Print;
    StrtoullPrinted(n, " " + more);
    assert (" " + more)[1..] == more;
    assert P.SkipBlanks(" " + more) == P.SkipBlanks(more) == more;
  }

  lemma TextHeader(png: nat, text: nat)
    requires png <= U64_MAX && text <= U64_MAX
    ensures P.Sized(P.EncodeText, Print(png) + (" " + Print(text)), 2) == P.Request(P.EncodeText, 0, png, text, 0, "")
  {
    hide Print, P.Numbers;
    MoreNumbers(png, Print(text), 1);
    OneNumber(text);
  }

  lemma FileHeader(png: nat, name: nat, file: nat)
    requires png <= U64_MAX && name <= U64_MAX && file <= U64_MAX
    ensures P.Sized(P.EncodeFile, Print(png) + (" " + (Print(name) + (" " + Print(file)))), 3)
      == P.Request(P.EncodeFile, 0, png, name, file, "")
  {
    hide Print, P.Numbers;
    MoreNumbers(png, Print(name) + (" " + Print(file)), 2);
    MoreNumbers(name, Print(file), 1);
    OneNumber(file);
  }

  lemma BareHasNoArguments(m: Message)
    ensures P.TakesArguments(CommandFor(m)) || Arguments(m) == ""
  {
    hide Print;
  }

  lemma ArgumentsArePlain(m: Message)
    requires Fits(m)
    ensures P.Plain(Arguments(m)) && |Arguments(m)| <= 62
  {
    hide Print;
    match m
    case EncodeTextMsg(png, text) =>
      PlainNumber(|png|);
      PlainNumber(|text|);
    case EncodeFileMsg(png, name, file) =>
      PlainNumber(|png|);
      PlainNumber(|name|);
      PlainNumber(|file|);
    case DecodeMsg(png) => PlainNumber(|png|);
    case ValidateMsg(png) => PlainNumber(|png|);
    case CapacityMsg(png) => PlainNumber(|png|);
    case PingMsg =>
    case QuitMsg =>
    case StatusMsg(id) => PlainNumber(id);
    case ResultMsg(id) => PlainNumber(id);
    case MetaMsg(id) => PlainNumber(id);
    case DownloadMsg(id) => PlainNumber(id);
    case CancelMsg(id) => PlainNumber(id);
  }

  lemma HeaderIsPlain(m: Message)
    requires Fits(m)
    ensures P.Plain(Header(m)) && 0 < |Header(m)| <= 80
  {
    hide Arguments, P.Word;
    ArgumentsArePlain(m);
    P.WordShape(CommandFor(m));
  }

  lemma ArgumentsAreRead(m: Message)
    requires Fits(m)
    ensures P.RequestOf(CommandFor(m), Arguments(m)) == Meant(m)
  {
    hide Print, P.Loose, P.Sized;
    match m
    case EncodeTextMsg(png, text) => TextHeader(|png|, |text|);
    case EncodeFileMsg(png, name, file) => FileHeader(|png|, |name|, |file|);
    case DecodeMsg(png) => LooseNumber(|png|);
    case ValidateMsg(png) => LooseNumber(|png|);
    case CapacityMsg(png) => LooseNumber(|png|);
    case PingMsg =>
    case QuitMsg =>
    case StatusMsg(id) => LooseNumber(id);
    case ResultMsg(id) => LooseNumber(id);
    case MetaMsg(id) => LooseNumber(id);
    case DownloadMsg(id) => LooseNumber(id);
    case CancelMsg(id) => LooseNumber(id);
  }

  /** The server understands every header the client prints. */
  lemma HeaderIsUnderstood(m: Message)
    requires Fits(m)
    ensures P.Parsed(Header(m) + "\n") == Meant(m)
  {
    hide Arguments, Meant, P.Parsed, P.Word, P.RequestOf;
    BareHasNoArguments(m);
    ArgumentsArePlain(m);
    P.WordShape(CommandFor(m));
    P.LineIsUnderstood(CommandFor(m), Arguments(m));
    ArgumentsAreRead(m);
  }

  // ----- Command lines, letter by letter

  /** Commands with a text argument: up to 4094 characters fit in front of the newline. */
  lemma JobTextLines(rest: string)
    requires P.Plain(rest)
    ensures |rest| <= 4087 ==> P.Parsed("SUBMIT " + rest + "\n") == P.Request(P.Submit, 0, 0, 0, 0, rest)
    ensures |rest| <= 4079 ==> P.Parsed("VALIDATE_IMAGE " + rest + "\n") == P.Request(P.ValidateImage, 0, 0, 0, 0, rest)
    ensures |rest| <= 4077 ==>
      P.Parsed("ANALYZE_CAPACITY " + rest + "\n") == P.Request(P.AnalyzeCapacity, 0, 0, 0, 0, rest)
  {
    hide P.Parsed, P.Plain, P.Loose, P.Sized;
    if |rest| <= 4087 {
      P.LineIsUnderstood(P.Submit, rest);
    }
    if |rest| <= 4079 {
      P.LineIsUnderstood(P.ValidateImage, rest);
    }
    if |rest| <= 4077 {
      P.LineIsUnderstood(P.AnalyzeCapacity, rest);
    }
  }

  lemma AdminTextLines(rest: string)
    requires P.Plain(rest)
    ensures |rest| <= 4089 ==> P.Parsed("KICK " + rest + "\n") == P.Request(P.Kick, 0, 0, 0, 0, rest)
    ensures |rest| <= 4086 ==> P.Parsed("BLOCKIP " + rest + "\n") == P.Request(P.BlockIp, 0, 0, 0, 0, rest)
    ensures |rest| <= 4084 ==> P.Parsed("UNBLOCKIP " + rest + "\n") == P.Request(P.UnblockIp, 0, 0, 0, 0, rest)
  {
    hide P.Parsed, P.Plain, P.Loose, P.Sized;
    if |rest| <= 4089 {
      P.LineIsUnderstood(P.Kick, rest);
    }
    if |rest| <= 4086 {
      P.LineIsUnderstood(P.BlockIp, rest);
    }
    if |rest| <= 4084 {
      P.LineIsUnderstood(P.UnblockIp, rest);
    }
  }

  /** Commands about a job. */
  lemma IdLines(id: nat)
    requires id <= U64_MAX
    ensures P.Parsed("STATUS " + Print(id) + "\n") == P.Request(P.Status, id, 0, 0, 0, "")
    ensures P.Parsed("RESULT " + Print(id) + "\n") == P.Request(P.Result, id, 0, 0, 0, "")
    ensures P.Parsed("CANCEL " + Print(id) + "\n") == P.Request(P.Cancel, id, 0, 0, 0, "")
    ensures P.Parsed("META " + Print(id) + "\n") == P.Request(P.Meta, id, 0, 0, 0, "")
    ensures P.Parsed("DOWNLOAD " + Print(id) + "\n") == P.Request(P.Download, id, 0, 0, 0, "")
  {
    hide P.Parsed, P.Plain, P.Loose, P.Sized, Print;
    PlainNumber(id);
    LooseNumber(id);
    P.LineIsUnderstood(P.Status, Print(id));
    P.LineIsUnderstood(P.Result, Print(id));
    P.LineIsUnderstood(P.Cancel, Print(id));
    P.LineIsUnderstood(P.Meta, Print(id));
    P.LineIsUnderstood(P.Download, Print(id));
  }

  /** Upload commands. */
  lemma SizeLines(a: nat, b: nat, c: nat)
    requires a <= U64_MAX && b <= U64_MAX && c <= U64_MAX
    ensures P.Parsed("DECODE " + Print(a) + "\n") == P.Request(P.Decode, 0, a, 0, 0, "")
    ensures P.Parsed("VALIDATE " + Print(a) + "\n") == P.Request(P.Validate, 0, a, 0, 0, "")
    ensures P.Parsed("CAPACITY " + Print(a) + "\n") == P.Request(P.Capacity, 0, a, 0, 0, "")
    ensures P.Parsed("ENCODE_TEXT " + (Print(a) + (" " + Print(b))) + "\n") == P.Request(P.EncodeText, 0, a, b, 0, "")
    ensures P.Parsed("ENCODE_FILE " + (Print(a) + (" " + (Print(b) + (" " + Print(c))))) + "\n")
      == P.Request(P.EncodeFile, 0, a, b, c, "")
  {
    hide P.Parsed, P.Loose, P.Sized, Print;
    PlainNumber(a);
    PlainNumber(b);
    PlainNumber(c);
    LooseNumber(a);
    P.LineIsUnderstood(P.Decode, Print(a));
    P.LineIsUnderstood(P.Validate, Print(a));
    P.LineIsUnderstood(P.Capacity, Print(a));
    P.LineIsUnderstood(P.EncodeText, Print(a) + (" " + Print(b)));
    TextHeader(a, b);
    P.LineIsUnderstood(P.EncodeFile, Print(a) + (" " + (Print(b) + (" " + Print(c)))));
    FileHeader(a, b, c);
  }

  /** A number beyond 64 bits: as an id it saturates, as one of several sizes it makes the command unknown. */
  lemma HugeNumberLines(n: nat)
    requires n > U64_MAX && |Print(n)| <= 4000
    ensures P.Parsed("STATUS " + Print(n) + "\n") == P.Request(P.Status, U64_MAX, 0, 0, 0, "")
    ensures P.Parsed("ENCODE_TEXT " + (Print(n) + " 1") + "\n") == P.Request(P.Unknown, 0, 0, 0, 0, "")
  {
    hide P.Parsed, Print, Strtoull, P.SkipBlanks;
    P.PrintIsPlain(n);
    StrtoullHuge(n, "");
    StrtoullHuge(n, " 1");
    assert Print(n) + "" == Print(n);
    assert P.Numbers(Print(n) + " 1", 2) == [];
    P.LineIsUnderstood(P.Status, Print(n));
    P.LineIsUnderstood(P.EncodeText, Print(n) + " 1");
  }

  /** Commands without arguments. */
  lemma UserBareLines()
    ensures P.Parsed("PING" + "\n") == P.Request(P.Ping, 0, 0, 0, 0, "")
    ensures P.Parsed("QUIT" + "\n") == P.Request(P.Quit, 0, 0, 0, 0, "")
    ensures P.Parsed("HELP" + "\n") == P.Request(P.Help, 0, 0, 0, 0, "")
  {
    hide P.Parsed, P.Loose, P.Sized;
    BareLine(P.Ping, "PING");
    BareLine(P.Quit, "QUIT");
    BareLine(P.Help, "HELP");
  }

  lemma AdminBareLines()
    ensures P.Parsed("LISTJOBS" + "\n") == P.Request(P.ListJobs, 0, 0, 0, 0, "")
    ensures P.Parsed("STATS" + "\n") == P.Request(P.Statistics, 0, 0, 0, 0, "")
    ensures P.Parsed("LISTCLIENTS" + "\n") == P.Request(P.ListClients, 0, 0, 0, 0, "")
  {
    hide P.Parsed, P.Loose, P.Sized;
    BareLine(P.ListJobs, "LISTJOBS");
    BareLine(P.Statistics, "STATS");
    BareLine(P.ListClients, "LISTCLIENTS");
  }

  lemma ReportLines()
    ensures P.Parsed("HISTORY" + "\n") == P.Request(P.History, 0, 0, 0, 0, "")
    ensures P.Parsed("AVGDURATION" + "\n") == P.Request(P.AvgDuration, 0, 0, 0, 0, "")
  {
    hide P.Parsed, P.Loose, P.Sized;
    BareLine(P.History, "HISTORY");
    BareLine(P.AvgDuration, "AVGDURATION");
  }

  lemma BareLine(c: P.Command, word: string)
    requires c != P.Unknown && !P.TakesArguments(c) && word == P.Word(c)
    ensures P.Parsed(word + "\n") == P.Request(c, 0, 0, 0, 0, "")
  {
    hide P.Parsed, P.Loose, P.Sized, P.Word;
    P.WordShape(c);
    P.LineIsUnderstood(c, "");
    assert word + "" + "\n" == word + "\n";
  }

  // ----- Messages

  lemma TakeFront(a: string, rest: string)
    ensures Take(a + rest, |a|) == (true, a, rest)
  {
  }

  lemma Regroup(a: string, b: string, c: string, d: string)
    ensures a + b + c + d == a + (b + (c + d))
  {
  }

  lemma PngTaken(png: string, rest: string, maxUpload: nat)
    requires 0 < |png| <= maxUpload
    ensures TakePng(png + rest, |png|, maxUpload) == (Received, png, rest)
  {
  }

  lemma ExtraTaken(extra: string, rest: string, max: nat)
    requires |extra| <= max
    ensures TakeExtra(extra + rest, |extra|, max) == (Received, extra, rest)
  {
  }

  /** A printed header, with anything behind it: the line the server reads, and what is left. */
  lemma HeaderIsRead(m: Message, after: string, admin: bool, maxUpload: nat)
    requires Fits(m)
    ensures Handle(Header(m) + "\n" + after, admin, maxUpload) ==
      if admin then (Other(Meant(m)), after) else Payloads(Meant(m), after, maxUpload)
  {
    hide Payloads, P.Parsed, Header, Meant, LineLength;
    HeaderIsPlain(m);
    HeaderIsUnderstood(m);
    var s := Header(m) + "\n" + after;
    WholeLine(Header(m), after, P.BUFFER_SIZE - 1);
    var n := LineLength(s, P.BUFFER_SIZE - 1);
    assert s[..n] == Header(m) + "\n";
    assert s[n..] == after;
  }

  // ----- What the server makes of every message

  predicate PngRefused(png: string, maxUpload: nat) {
    |png| == 0 || |png| > maxUpload
  }

  /** The outcome of any message a user sends, whatever its sizes. */
  function Answer(m: Message, maxUpload: nat): Outcome {
    match m
    case EncodeTextMsg(png, text) =>
      if PngRefused(png, maxUpload) then InvalidPngSize
      else if |text| > 1048576 then ExtraTooLarge
      else Enqueued(TextSort, png, "", text)
    case EncodeFileMsg(png, name, file) =>
      if |name| > 255 then Discarded(true)
      else if PngRefused(png, maxUpload) then InvalidPngSize
      else if |file| > maxUpload then ExtraTooLarge
      else Enqueued(FileSort, png, P.CStr(name), file)
    case DecodeMsg(png) => if PngRefused(png, maxUpload) then InvalidPngSize else Enqueued(DecodeSort, png, "", "")
    case ValidateMsg(png) => if PngRefused(png, maxUpload) then InvalidPngSize else Enqueued(ValidateSort, png, "", "")
    case CapacityMsg(png) => if PngRefused(png, maxUpload) then InvalidPngSize else Enqueued(CapacitySort, png, "", "")
    case _ => Other(Meant(m))
  }

  /** The part of a message's payload that the server leaves unread: a refused size ends the
      command without draining what follows, and the discarded total wraps at 2^64. */
  function Undrained(m: Message, maxUpload: nat): string {
    match m
    case EncodeTextMsg(png, text) =>
      if PngRefused(png, maxUpload) then png + text else if |text| > MAX_TEXT_BYTES then text else ""
    case EncodeFileMsg(png, name, file) =>
      if |name| > MAX_FILENAME_BYTES then (png + name + file)[(|png| + |name| + |file|) % U64..]
      else if PngRefused(png, maxUpload) then png + name + file
      else if |file| > maxUpload then file else ""
    case DecodeMsg(png) => if PngRefused(png, maxUpload) then png else ""
    case ValidateMsg(png) => if PngRefused(png, maxUpload) then png else ""
    case CapacityMsg(png) => if PngRefused(png, maxUpload) then png else ""
    case _ => ""
  }

  lemma TextAnswered(png: string, text: string, rest: string, maxUpload: nat)
    ensures TextPayloads(|png|, |text|, png + (text + rest), maxUpload)
      == if PngRefused(png, maxUpload) then (InvalidPngSize, png + (text + rest))
         else if |text| > MAX_TEXT_BYTES then (ExtraTooLarge, text + rest)
         else (Enqueued(TextSort, png, "", text), rest)
  {
    hide Take;
    if !PngRefused(png, maxUpload) {
      PngTaken(png, text + rest, maxUpload);
      if |text| <= MAX_TEXT_BYTES {
        ExtraTaken(text, rest, MAX_TEXT_BYTES);
      }
    }
  }

  lemma FileAnswered(png: string, name: string, file: string, rest: string, maxUpload: nat)
    ensures FilePayloads(|png|, |name|, |file|, png + (name + (file + rest)), maxUpload)
      == if PngRefused(png, maxUpload) then (InvalidPngSize, png + (name + (file + rest)))
         else if |file| > maxUpload then (ExtraTooLarge, file + rest)
         else (Enqueued(FileSort, png, P.CStr(name), file), rest)
  {
    hide P.CStr, Take;
    if !PngRefused(png, maxUpload) {
      PngTaken(png, name + (file + rest), maxUpload);
      TakeFront(name, file + rest);
      if |file| <= maxUpload {
        ExtraTaken(file, rest, maxUpload);
      }
    }
  }

  lemma PngAnswered(sort: Sort, png: string, rest: string, maxUpload: nat)
    ensures PngPayload(sort, |png|, png + rest, maxUpload)
      == if PngRefused(png, maxUpload) then (InvalidPngSize, png + rest) else (Enqueued(sort, png, "", ""), rest)
  {
    hide Take;
    if !PngRefused(png, maxUpload) {
      PngTaken(png, rest, maxUpload);
    }
  }

  lemma SkippedPart(payload: string, rest: string)
    ensures Skip(|payload|, payload + rest) == (Discarded(true), payload[|payload| % U64..] + rest)
  {
    var size := |payload| % U64;
    assert size <= |payload|;
    assert (payload + rest)[size..] == payload[size..] + rest;
  }

  lemma EncodeFileAnswered(png: string, name: string, file: string, rest: string, maxUpload: nat)
    ensures var m := EncodeFileMsg(png, name, file);
      Payloads(Meant(m), png + name + file + rest, maxUpload) == (Answer(m, maxUpload), Undrained(m, maxUpload) + rest)
  {
    hide P.CStr, FilePayloads, Skip, PngRefused;
    if |name| > MAX_FILENAME_BYTES {
      SkippedPart(png + name + file, rest);
    } else {
      FileAnswered(png, name, file, rest, maxUpload);
      Regroup(png, name, file, rest);
      assert "" + rest == rest;
    }
  }

  lemma PayloadsAnswered(m: Message, rest: string, maxUpload: nat)
    ensures Payloads(Meant(m), Payload(m) + rest, maxUpload) == (Answer(m, maxUpload), Undrained(m, maxUpload) + rest)
  {
    hide P.CStr, TextPayloads, PngPayload, PngRefused;
    assert "" + rest == rest;
    match m
    case EncodeTextMsg(png, text) =>
      TextAnswered(png, text, rest, maxUpload);
      assert png + text + rest == png + (text + rest);
    case EncodeFileMsg(png, name, file) =>
      hide Payloads, Undrained, Answer;
      EncodeFileAnswered(png, name, file, rest, maxUpload);
    case DecodeMsg(png) => PngAnswered(DecodeSort, png, rest, maxUpload);
    case ValidateMsg(png) => PngAnswered(ValidateSort, png, rest, maxUpload);
    case CapacityMsg(png) => PngAnswered(CapacitySort, png, rest, maxUpload);
    case _ =>
  }

  /** For every message of a user, accepted or not: the outcome, and what is left unread. */
  lemma EveryMessageIsAnswered(m: Message, rest: string, maxUpload: nat)
    requires Fits(m)
    ensures Handle(Printed(m) + rest, false, maxUpload) == (Answer(m, maxUpload), Undrained(m, maxUpload) + rest)
  {
    PrintedParts(m, rest);
    HeaderIsRead(m, Payload(m) + rest, false, maxUpload);
    PayloadsAnswered(m, rest, maxUpload);
    hide *;
  }

  lemma PrintedParts(m: Message, rest: string)
    ensures Printed(m) + rest == Header(m) + "\n" + (Payload(m) + rest)
  {
    hide Header, Payload;
  }

  lemma AcceptedIsExpected(m: Message, maxUpload: nat)
    requires Accepted(m, maxUpload)
    ensures Answer(m, maxUpload) == Expected(m)
  {
    hide P.CStr;
  }

  /** Handling a user's printed message, with anything after it, yields exactly what was sent and
      stops at the message's end. */
  lemma MessageIsRecovered(m: Message, rest: string, maxUpload: nat)
    requires Accepted(m, maxUpload)
    ensures Handle(Printed(m) + rest, false, maxUpload) == (Expected(m), rest)
  {
    EveryMessageIsAnswered(m, rest, maxUpload);
    AcceptedIsExpected(m, maxUpload);
    DrainedExactly(m, maxUpload);
    assert "" + rest == rest;
    hide Handle, Undrained, Answer, Expected, Printed;
  }

  lemma WrapsShorter(t: nat)
    ensures t % U64 == t <==> t < U64
  {
  }

  /** Nothing is left undrained exactly when the message is accepted, or has no payload at all. */
  lemma DrainedExactly(m: Message, maxUpload: nat)
    requires Fits(m)
    ensures Undrained(m, maxUpload) == "" <==> Accepted(m, maxUpload) || Payload(m) == ""
  {
    match m
    case EncodeTextMsg(png, text) =>
      assert |png + text| == |png| + |text|;
    case EncodeFileMsg(png, name, file) =>
      assert |png + name + file| == |png| + |name| + |file|;
      WrapsShorter(|png| + |name| + |file|);
      assert |png + name + file| == 0 <==> png + name + file == "";
    case _ =>
  }

  /** Whatever the sizes, the server stops exactly where the undrained part begins; so it stops at
      the message's end if and only if the message has no payload at all, or comes from a user and
      is within the size limits (with the total of a discarded one below 2^64). */
  lemma StopsAtBoundaryExactly(m: Message, rest: string, admin: bool, maxUpload: nat)
    requires Fits(m)
    ensures var left := Handle(Printed(m) + rest, admin, maxUpload).1;
      && left == (if admin then Payload(m) else Undrained(m, maxUpload)) + rest
      && (left == rest <==> Payload(m) == "" || (!admin && Accepted(m, maxUpload)))
  {
    PrintedParts(m, rest);
    HeaderIsRead(m, Payload(m) + rest, admin, maxUpload);
    EveryMessageIsAnswered(m, rest, maxUpload);
    DrainedExactly(m, maxUpload);
    hide *;
    assert |Undrained(m, maxUpload) + rest| == |Undrained(m, maxUpload)| + |rest|;
    assert |Payload(m) + rest| == |Payload(m)| + |rest|;
  }

  // ----- Messages cut short by the end of the connection

  lemma FrontTaken(s: string, front: string)
    requires front <= s
    ensures Take(s, |front|) == (true, front, s[|front|..])
  {
    assert s[..|front|] == front;
  }

  lemma TextCut(png: string, text: string, t: string, maxUpload: nat)
    requires 0 < |png| <= maxUpload && |text| <= MAX_TEXT_BYTES && t < png + text
    ensures TextPayloads(|png|, |text|, t, maxUpload) == (UploadFailed, "")
  {
    if |png| <= |t| {
      assert t[..|png|] == png;
      FrontTaken(t, png);
    }
  }

  lemma FileCut(png: string, name: string, file: string, t: string, maxUpload: nat)
    requires 0 < |png| <= maxUpload && |file| <= maxUpload && t < png + name + file
    ensures FilePayloads(|png|, |name|, |file|, t, maxUpload) == (UploadFailed, "")
  {
    hide P.CStr;
    if |png| <= |t| {
      assert t[..|png|] == png;
      FrontTaken(t, png);
      var s1 := t[|png|..];
      if |name| <= |s1| {
        assert s1[..|name|] == name;
        FrontTaken(s1, name);
      }
    }
  }

  /** An accepted message whose payload the end of the stream cuts short makes no job: the upload
      fails, or the discarding does, and nothing is left. */
  lemma CutShortMakesNoJob(m: Message, t: string, maxUpload: nat)
    requires Accepted(m, maxUpload) && t < Payload(m)
    ensures Handle(Header(m) + "\n" + t, false, maxUpload)
      == (if m.EncodeFileMsg? && |m.name| > MAX_FILENAME_BYTES then Discarded(false) else UploadFailed, "")
  {
    hide Handle, Header, TextPayloads, FilePayloads;
    HeaderIsRead(m, t, false, maxUpload);
    match m
    case EncodeTextMsg(png, text) => TextCut(png, text, t, maxUpload);
    case EncodeFileMsg(png, name, file) =>
      if |name| > MAX_FILENAME_BYTES {
        WrapsShorter(|png| + |name| + |file|);
        assert |png + name + file| == |png| + |name| + |file|;
      } else {
        FileCut(png, name, file, t, maxUpload);
      }
    case _ =>
  }

  // ----- Sessions

  function PrintedAll(ms: seq<Message>): string
    decreases |ms|
  {
    if ms == [] then "" else Printed(ms[0]) + PrintedAll(ms[1..])
  }

  /** The messages of a session are served up to the first QUIT; without one, up to the end. */
  function ExpectedSession(ms: seq<Message>): seq<Outcome>
    decreases |ms|
  {
    if ms == [] then [Closed]
    else if ms[0].QuitMsg? then [Expected(ms[0])]
    else [Expected(ms[0])] + ExpectedSession(ms[1..])
  }

  function Unserved(ms: seq<Message>): string
    decreases |ms|
  {
    if ms == [] then "" else if ms[0].QuitMsg? then PrintedAll(ms[1..]) else Unserved(ms[1..])
  }

  lemma OnlyQuitEnds(m: Message)
    ensures EndsSession(Expected(m)) <==> m.QuitMsg?
  {
    hide P.CStr;
  }

  /** A user's session: the server's outcomes are the messages sent, in order, up to the first
      QUIT, behind which it stops; without a QUIT, all of them and then the end of the stream. */
  lemma {:induction false} SessionIsRecovered(ms: seq<Message>, rest: string, maxUpload: nat)
    requires forall i :: 0 <= i < |ms| ==> Accepted(ms[i], maxUpload)
    requires rest == "" || exists i :: 0 <= i < |ms| && ms[i].QuitMsg?
    ensures Session(PrintedAll(ms) + rest, false, maxUpload) == (ExpectedSession(ms), Unserved(ms) + rest)
    decreases |ms|
  {
    hide Printed, Expected, Accepted, Payloads, P.Parsed, EndsSession;
    if ms == [] {
      EmptyStream(maxUpload);
    } else {
      hide Handle;
      assert PrintedAll(ms) + rest == Printed(ms[0]) + (PrintedAll(ms[1..]) + rest);
      MessageIsRecovered(ms[0], PrintedAll(ms[1..]) + rest, maxUpload);
      OnlyQuitEnds(ms[0]);
      if !ms[0].QuitMsg? {
        SessionIsRecovered(ms[1..], rest, maxUpload);
      }
    }
  }

  lemma EmptyStream(maxUpload: nat)
    ensures Session("", false, maxUpload) == ([Closed], "")
  {
  }

  /** On a connection that carries a user's printed messages, cut into reads in any way, the
      server's loop recovers them, unless the connection or the disk fails for good. */
  method ServePrinted(s: Stream, ghost ms: seq<Message>, ghost rest: string, maxUpload: nat) returns (os: seq<Outcome>)
    requires s.pending == PrintedAll(ms) + rest
    requires forall i :: 0 <= i < |ms| ==> Accepted(ms[i], maxUpload)
    requires rest == "" || exists i :: 0 <= i < |ms| && ms[i].QuitMsg?
    modifies s
    ensures s.failures <= old(s.failures)
    ensures s.failures == old(s.failures) ==> os == ExpectedSession(ms) && s.pending == Unserved(ms) + rest
  {
    SessionIsRecovered(ms, rest, maxUpload);
    hide *;
    os := ServeSession(s, false, maxUpload);
  }
}
