/** The command-line parser of the text protocol. */
module Protocol {
  import opened Decimal
  import opened Util

  const BUFFER_SIZE := 4096

  datatype Command =
    | Unknown | Ping | Quit | Submit | Status | Result | Cancel | ListJobs | Statistics | ValidateImage
    | AnalyzeCapacity | EncodeText | EncodeFile | Decode | Validate | Capacity | Meta | Download
    | ListClients | History | Kick | BlockIp | UnblockIp | AvgDuration | Help

  datatype Request = Request(command: Command, jobId: nat, size1: nat, size2: nat, size3: nat, argument1: string)

  const BLANK: Request := Request(Unknown, 0, 0, 0, 0, "")

  /** A C string: what precedes the first NUL. */
  function CStr(s: string): (r: string)
    ensures r <= s && '\0' !in r
    ensures |r| < |s| ==> s[|r|] == '\0'
    decreases |s|
  {
    if s == "" || s[0] == '\0' then "" else [s[0]] + CStr(s[1..])
  }

  /** The line as copied by snprintf into a buffer of BUFFER_SIZE, its final newline removed. */
  function Copied(line: string): string {
    var copy := Clipped(CStr(line), BUFFER_SIZE);
    if copy != "" && copy[|copy| - 1] == '\n' then copy[..|copy| - 1] else copy
  }

  /** strtoull without error checks. */
  function Loose(s: string): nat {
    match Strtoull(s)
    case NoNumber => 0
    case OutOfRange => U64_MAX
    case Number(v, _) => v
  }

  function SkipBlanks(s: string): (r: string)
    decreases |s|
  {
    if s != "" && (s[0] == ' ' || s[0] == '\t') then SkipBlanks(s[1..]) else s
  }

  /** Up to `count` numbers separated by blanks; fewer if one does not convert. */
  function Numbers(s: string, count: nat): (ns: seq<nat>)
    ensures |ns| <= count
    decreases count
  {
    if count == 0 then []
    else
      match Strtoull(s)
      case Number(v, tail) => [v] + Numbers(SkipBlanks(tail), count - 1)
      case _ => []
  }

  /** An upload command: unknown unless all of its sizes convert; sizes already read are kept. */
  function Sized(command: Command, s: string, count: nat): Request
    requires count <= 3
  {
    var ns := Numbers(s, count);
    Request(if |ns| == count then command else Unknown, 0,
            if |ns| > 0 then ns[0] else 0, if |ns| > 1 then ns[1] else 0, if |ns| > 2 then ns[2] else 0, "")
  }

  // ----- What a command line means: its first word decides

  /** The line through its first blank; all of it if there is none. */
  function FirstWord(s: string): (w: string)
    ensures w <= s
    decreases |s|
  {
    if s == "" then "" else if s[0] == ' ' then " " else [s[0]] + FirstWord(s[1..])
  }

  /** The word that introduces a command. Words of commands with arguments end in a blank. */
  function Word(c: Command): string {
    match c
    case Ping => "PING"
    case Quit => "QUIT"
    case ListJobs => "LISTJOBS"
    case Statistics => "STATS"
    case ListClients => "LISTCLIENTS"
    case History => "HISTORY"
    case AvgDuration => "AVGDURATION"
    case Help => "HELP"
    case Submit => "SUBMIT "
    case Status => "STATUS "
    case Result => "RESULT "
    case Cancel => "CANCEL "
    case ValidateImage => "VALIDATE_IMAGE "
    case AnalyzeCapacity => "ANALYZE_CAPACITY "
    case EncodeText => "ENCODE_TEXT "
    case EncodeFile => "ENCODE_FILE "
    case Decode => "DECODE "
    case Validate => "VALIDATE "
    case Capacity => "CAPACITY "
    case Meta => "META "
    case Download => "DOWNLOAD "
    case Kick => "KICK "
    case BlockIp => "BLOCKIP "
    case UnblockIp => "UNBLOCKIP "
    case Unknown => ""
  }

  predicate TakesText(c: Command) {
    c in {Submit, ValidateImage, AnalyzeCapacity, Kick, BlockIp, UnblockIp}
  }

  predicate TakesId(c: Command) {
    c in {Status, Result, Cancel, Meta, Download}
  }

  predicate TakesPng(c: Command) {
    c in {Decode, Validate, Capacity}
  }

  predicate TakesArguments(c: Command) {
    TakesText(c) || TakesId(c) || TakesPng(c) || c in {EncodeText, EncodeFile}
  }

  /** The command a first word belongs to. */
  ghost function CommandOf(word: string): (c: Command)
    ensures c != Unknown ==> Word(c) == word
    ensures c == Unknown ==> forall d :: d != Unknown ==> Word(d) != word
  {
    if exists c :: c != Unknown && Word(c) == word then
      var c :| c != Unknown && Word(c) == word;
      c
    else Unknown
  }

  /** A command with what follows its word. */
  function RequestOf(c: Command, rest: string): Request {
    if c == EncodeText then Sized(c, rest, 2)
    else if c == EncodeFile then Sized(c, rest, 3)
    else if TakesText(c) then BLANK.(command := c, argument1 := rest)
    else if TakesId(c) then BLANK.(command := c, jobId := Loose(rest))
    else if TakesPng(c) then BLANK.(command := c, size1 := Loose(rest))
    else BLANK.(command := c)
  }

  ghost function Parsed(line: string): Request {
    var copy := Copied(line);
    var word := FirstWord(copy);
    RequestOf(CommandOf(word), copy[|word|..])
  }

  /** The test the parser makes for a command. */
  predicate Matches(copy: string, c: Command) {
    if TakesArguments(c) then Word(c) <= copy else copy == Word(c)
  }

  lemma {:induction false} FirstWordOf(word: string, rest: string)
    requires word != "" && word[|word| - 1] == ' ' && forall i :: 0 <= i < |word| - 1 ==> word[i] != ' '
    ensures FirstWord(word + rest) == word
    decreases |word|
  {
    assert (word + rest)[1..] == word[1..] + rest;
    if |word| > 1 {
      FirstWordOf(word[1..], rest);
    }
  }

  lemma {:induction false} WholeLineIsWord(s: string)
    requires ' ' !in s
    ensures FirstWord(s) == s
    decreases |s|
  {
    if s != "" {
      WholeLineIsWord(s[1..]);
    }
  }

  lemma {:induction false} NoBlankNoMore(s: string)
    requires ' ' !in FirstWord(s)
    ensures FirstWord(s) == s
    decreases |s|
  {
    if s != "" {
      assert ' ' in " ";
      NoBlankNoMore(s[1..]);
    }
  }

  predicate IsLetter(c: char) {
    'A' <= c <= 'Z' || c == '_'
  }

  /** Letters, and at most one blank, at the end. */
  predicate WordLike(w: string) {
    && 0 < |w| <= 17 && (forall i :: 0 <= i < |w| - 1 ==> IsLetter(w[i]))
    && (IsLetter(w[|w| - 1]) || w[|w| - 1] == ' ')
  }

  lemma BareWords(c: Command)
    requires c != Unknown && !TakesArguments(c)
    ensures WordLike(Word(c)) && Word(c)[|Word(c)| - 1] != ' '
  {
  }

  lemma JobTextWords(c: Command)
    requires c in {Submit, ValidateImage, AnalyzeCapacity}
    ensures WordLike(Word(c)) && Word(c)[|Word(c)| - 1] == ' '
  {
  }

  lemma AdminTextWords(c: Command)
    requires c in {Kick, BlockIp, UnblockIp}
    ensures WordLike(Word(c)) && Word(c)[|Word(c)| - 1] == ' '
  {
  }

  lemma IdWords(c: Command)
    requires TakesId(c)
    ensures WordLike(Word(c)) && Word(c)[|Word(c)| - 1] == ' '
  {
  }

  lemma PngWords(c: Command)
    requires TakesPng(c)
    ensures WordLike(Word(c)) && Word(c)[|Word(c)| - 1] == ' '
  {
  }

  lemma EncodeWords()
    ensures WordLike("ENCODE_TEXT ") && WordLike("ENCODE_FILE ")
  {
  }

  /** Words of commands with arguments have one blank, at their end; the others have none. */
  lemma WordShape(c: Command)
    requires c != Unknown
    ensures WordLike(Word(c)) && (TakesArguments(c) <==> Word(c)[|Word(c)| - 1] == ' ')
  {
    hide IsLetter, WordLike;
    if c == EncodeText || c == EncodeFile {
      EncodeWords();
    } else {
      hide Word;
      if !TakesArguments(c) {
        BareWords(c);
      } else if c in {Submit, ValidateImage, AnalyzeCapacity} {
        JobTextWords(c);
      } else if TakesText(c) {
        AdminTextWords(c);
      } else if TakesId(c) {
        IdWords(c);
      } else {
        PngWords(c);
      }
    }
  }

  lemma PrefixIsFirstWord(copy: string, w: string)
    requires WordLike(w) && w[|w| - 1] == ' '
    ensures w <= copy <==> FirstWord(copy) == w
  {
    if w <= copy {
      assert copy == w + copy[|w|..];
      FirstWordOf(w, copy[|w|..]);
    }
  }

  lemma LineIsFirstWord(copy: string, w: string)
    requires WordLike(w) && w[|w| - 1] != ' '
    ensures copy == w <==> FirstWord(copy) == w
  {
    if copy == w {
      WholeLineIsWord(w);
    } else if FirstWord(copy) == w {
      NoBlankNoMore(copy);
    }
  }

  lemma MatchIsFirstWord(copy: string, c: Command)
    requires c != Unknown
    ensures Matches(copy, c) <==> FirstWord(copy) == Word(c)
  {
    hide Word, FirstWord, IsLetter;
    WordShape(c);
    if TakesArguments(c) {
      PrefixIsFirstWord(copy, Word(c));
    } else {
      LineIsFirstWord(copy, Word(c));
    }
  }

  lemma MatchesByFirstWord(copy: string)
    ensures forall c :: c != Unknown ==> (Matches(copy, c) <==> FirstWord(copy) == Word(c))
  {
    hide Matches, FirstWord, Word;
    forall c | c != Unknown
      ensures Matches(copy, c) <==> FirstWord(copy) == Word(c)
    {
      MatchIsFirstWord(copy, c);
    }
  }

  /** No two commands share a word. */
  lemma WordsDiffer(c: Command, d: Command)
    requires c != Unknown && Word(c) == Word(d)
    ensures c == d
  {
    var v, w := Word(c), Word(d);
    assert v[0] == w[0] && v[1] == w[1] && (|v| > 7 ==> v[7] == w[7]);
  }

  lemma Found(line: string, c: Command)
    requires c != Unknown && FirstWord(Copied(line)) == Word(c)
    ensures CommandOf(Word(c)) == c
    ensures Parsed(line) == RequestOf(c, Copied(line)[|Word(c)|..])
  {
    WordsDiffer(c, CommandOf(Word(c)));
    hide Copied, FirstWord, Word, RequestOf, CommandOf;
  }

  lemma NothingFound(line: string)
    requires forall c :: c != Unknown ==> FirstWord(Copied(line)) != Word(c)
    ensures Parsed(line) == BLANK
  {
    hide Copied, FirstWord, Word;
  }

  /** The line's sizes convert, for the two commands that need several. */
  predicate SizesConvert(c: Command, rest: string) {
    (c == EncodeText ==> |Numbers(rest, 2)| == 2) && (c == EncodeFile ==> |Numbers(rest, 3)| == 3)
  }

  lemma PlainRequest(c: Command, rest: string)
    ensures TakesText(c) ==> RequestOf(c, rest) == Request(c, 0, 0, 0, 0, rest)
    ensures !TakesArguments(c) ==> RequestOf(c, rest) == Request(c, 0, 0, 0, 0, "")
  {
  }

  lemma CommandOfRequest(c: Command, rest: string)
    requires c != Unknown
    ensures RequestOf(c, rest).command == if SizesConvert(c, rest) then c else Unknown
  {
    hide Numbers, Loose;
  }

  /** The line passes `c`'s own test, and the sizes behind its word convert. */
  predicate IsCommand(copy: string, c: Command) {
    Matches(copy, c) && |Word(c)| <= |copy| && SizesConvert(c, copy[|Word(c)|..])
  }

  /** A line is command `c` exactly when it matches `c`'s own test and its sizes convert, whatever
      the other tests and their order. */
  lemma CommandIsItsWord(line: string, c: Command)
    requires c != Unknown
    ensures Parsed(line).command == c <==> IsCommand(Copied(line), c)
    ensures Matches(Copied(line), c) ==> Parsed(line) == RequestOf(c, Copied(line)[|Word(c)|..])
    ensures TakesText(c) && IsCommand(Copied(line), c) ==>
      Parsed(line) == Request(c, 0, 0, 0, 0, Copied(line)[|Word(c)|..])
  {
    var copy := Copied(line);
    var d := CommandOf(FirstWord(copy));
    MatchIsFirstWord(copy, c);
    PlainRequest(c, if |Word(c)| <= |copy| then copy[|Word(c)|..] else "");
    hide Copied, FirstWord, Word, Parsed, CommandOf, Matches, RequestOf, SizesConvert;
    if d == Unknown {
      NothingFound(line);
    } else {
      Found(line, d);
      CommandOfRequest(d, copy[|Word(d)|..]);
      if Matches(copy, c) {
        Found(line, c);
      }
    }
  }

  // ----- The parser itself

  /** Drops the blanks and tabs at the front, and nothing else. */
  lemma {:induction false} OnlyBlanksSkipped(s: string)
    ensures var r := SkipBlanks(s);
      && |r| <= |s| && r == s[|s| - |r|..]
      && (forall i :: 0 <= i < |s| - |r| ==> s[i] == ' ' || s[i] == '\t')
      && (r != "" ==> r[0] != ' ' && r[0] != '\t')
    decreases |s|
  {
    if s != "" && (s[0] == ' ' || s[0] == '\t') {
      OnlyBlanksSkipped(s[1..]);
      var r := SkipBlanks(s);
      forall i | 0 < i < |s| - |r|
        ensures s[i] == ' ' || s[i] == '\t'
      {
        assert s[i] == s[1..][i - 1];
      }
    }
  }

  method SkipWs(s: string) returns (r: string)
    ensures r == SkipBlanks(s)
  {
    r := s;
    while r != "" && (r[0] == ' ' || r[0] == '\t')
      invariant SkipBlanks(r) == SkipBlanks(s)
      decreases |r|
    {
      r := r[1..];
    }
  }

  /** The arguments of ENCODE_TEXT and ENCODE_FILE, filled in one after the other. */
  method ParseSizes(command: Command, s: string, count: nat) returns (request: Request)
    requires 2 <= count <= 3
    ensures request == Sized(command, s, count)
  {
    request := BLANK.(command := command);
    var p := s;
    var n := Strtoull(p);
    if !n.Number? {
      return request.(command := Unknown);
    }
    request := request.(size1 := n.value);
    p := SkipWs(n.tail);
    assert Numbers(s, count) == [n.value] + Numbers(p, count - 1);
    n := Strtoull(p);
    if !n.Number? {
      return request.(command := Unknown);
    }
    request := request.(size2 := n.value);
    assert Numbers(p, count - 1) == [n.value] + Numbers(SkipBlanks(n.tail), count - 2);
    if count == 3 {
      p := SkipWs(n.tail);
      n := Strtoull(p);
      if !n.Number? {
        return request.(command := Unknown);
      }
      request := request.(size3 := n.value);
      assert Numbers(p, 1) == [n.value] + Numbers(SkipBlanks(n.tail), 0);
    }
  }

  lemma MatchedWordFits(copy: string)
    ensures forall c :: Matches(copy, c) ==> |Word(c)| <= |copy|
  {
    hide Word;
  }

  /** The commands without arguments. */
  method ParseBare(copy: string) returns (found: Command, request: Request)
    ensures found != Unknown ==> Matches(copy, found) && |Word(found)| <= |copy|
    ensures found != Unknown ==> request == RequestOf(found, copy[|Word(found)|..])
    ensures found == Unknown ==> request == BLANK
    ensures found == Unknown ==> forall c ::
      c in {Ping, Quit, ListJobs, Statistics, ListClients, History, AvgDuration, Help} ==> !Matches(copy, c)
  {
    MatchedWordFits(copy);
    hide Loose, Sized, Matches, Word;
    found, request := Unknown, BLANK;
    if Matches(copy, Ping) {
      found, request := Ping, BLANK.(command := Ping);
    } else if Matches(copy, Quit) {
      found, request := Quit, BLANK.(command := Quit);
    } else if Matches(copy, ListJobs) {
      found, request := ListJobs, BLANK.(command := ListJobs);
    } else if Matches(copy, Statistics) {
      found, request := Statistics, BLANK.(command := Statistics);
    } else if Matches(copy, ListClients) {
      found, request := ListClients, BLANK.(command := ListClients);
    } else if Matches(copy, History) {
      found, request := History, BLANK.(command := History);
    } else if Matches(copy, AvgDuration) {
      found, request := AvgDuration, BLANK.(command := AvgDuration);
    } else if Matches(copy, Help) {
      found, request := Help, BLANK.(command := Help);
    }
  }

  /** The commands tried next. */
  method ParseEarly(copy: string) returns (found: Command, request: Request)
    ensures found != Unknown ==> Matches(copy, found) && |Word(found)| <= |copy|
    ensures found != Unknown ==> request == RequestOf(found, copy[|Word(found)|..])
    ensures found == Unknown ==> request == BLANK
    ensures found == Unknown ==> forall c ::
      c in {Submit, Status, Result, Cancel, ValidateImage, AnalyzeCapacity, EncodeText, EncodeFile} ==> !Matches(copy, c)
  {
    MatchedWordFits(copy);
    hide Loose, Sized, Matches, Word;
    found, request := Unknown, BLANK;
    if Matches(copy, Submit) {
      found, request := Submit, BLANK.(command := Submit, argument1 := copy[|Word(Submit)|..]);
    } else if Matches(copy, Status) {
      found, request := Status, BLANK.(command := Status, jobId := Loose(copy[|Word(Status)|..]));
    } else if Matches(copy, Result) {
      found, request := Result, BLANK.(command := Result, jobId := Loose(copy[|Word(Result)|..]));
    } else if Matches(copy, Cancel) {
      found, request := Cancel, BLANK.(command := Cancel, jobId := Loose(copy[|Word(Cancel)|..]));
    } else if Matches(copy, ValidateImage) {
      found, request := ValidateImage, BLANK.(command := ValidateImage, argument1 := copy[|Word(ValidateImage)|..]);
    } else if Matches(copy, AnalyzeCapacity) {
      found := AnalyzeCapacity;
      request := BLANK.(command := AnalyzeCapacity, argument1 := copy[|Word(AnalyzeCapacity)|..]);
    } else if Matches(copy, EncodeText) {
      request := ParseSizes(EncodeText, copy[|Word(EncodeText)|..], 2);
      found := EncodeText;
    } else if Matches(copy, EncodeFile) {
      request := ParseSizes(EncodeFile, copy[|Word(EncodeFile)|..], 3);
      found := EncodeFile;
    }
  }

  /** The commands tried last. */
  method ParseLate(copy: string) returns (found: Command, request: Request)
    ensures found != Unknown ==> Matches(copy, found) && |Word(found)| <= |copy|
    ensures found != Unknown ==> request == RequestOf(found, copy[|Word(found)|..])
    ensures found == Unknown ==> request == BLANK
    ensures found == Unknown ==> forall c ::
      c in {Decode, Validate, Capacity, Meta, Download, Kick, BlockIp, UnblockIp} ==> !Matches(copy, c)
  {
    MatchedWordFits(copy);
    hide Loose, Sized, Matches, Word;
    found, request := Unknown, BLANK;
    if Matches(copy, Decode) {
      found, request := Decode, BLANK.(command := Decode, size1 := Loose(copy[|Word(Decode)|..]));
    } else if Matches(copy, Validate) {
      found, request := Validate, BLANK.(command := Validate, size1 := Loose(copy[|Word(Validate)|..]));
    } else if Matches(copy, Capacity) {
      found, request := Capacity, BLANK.(command := Capacity, size1 := Loose(copy[|Word(Capacity)|..]));
    } else if Matches(copy, Meta) {
      found, request := Meta, BLANK.(command := Meta, jobId := Loose(copy[|Word(Meta)|..]));
    } else if Matches(copy, Download) {
      found, request := Download, BLANK.(command := Download, jobId := Loose(copy[|Word(Download)|..]));
    } else if Matches(copy, Kick) {
      found, request := Kick, BLANK.(command := Kick, argument1 := copy[|Word(Kick)|..]);
    } else if Matches(copy, BlockIp) {
      found, request := BlockIp, BLANK.(command := BlockIp, argument1 := copy[|Word(BlockIp)|..]);
    } else if Matches(copy, UnblockIp) {
      found, request := UnblockIp, BLANK.(command := UnblockIp, argument1 := copy[|Word(UnblockIp)|..]);
    }
  }

  /** The chain of comparisons and prefix tests, in the order of the source. The order does not
      matter: a command is recognised exactly when its own test succeeds and its sizes convert. */
  method ParseLine(line: string) returns (request: Request)
    ensures request == Parsed(line)
    ensures forall c :: c != Unknown ==> (request.command == c <==> IsCommand(Copied(line), c))
    ensures forall c :: TakesText(c) && IsCommand(Copied(line), c) ==>
      request == Request(c, 0, 0, 0, 0, Copied(line)[|Word(c)|..])
  {
    forall c | c != Unknown
      ensures Parsed(line).command == c <==> IsCommand(Copied(line), c)
      ensures TakesText(c) && IsCommand(Copied(line), c) ==>
        Parsed(line) == Request(c, 0, 0, 0, 0, Copied(line)[|Word(c)|..])
    {
      CommandIsItsWord(line, c);
    }
    hide IsCommand;
    var copy := Copied(line);
    MatchesByFirstWord(copy);
    hide Parsed, FirstWord, Copied, CommandOf, Matches, Word, RequestOf;
    var found;
    found, request := ParseBare(copy);
    if found == Unknown {
      found, request := ParseEarly(copy);
    }
    if found == Unknown {
      found, request := ParseLate(copy);
    }
    if found == Unknown {
      NothingFound(line);
    } else {
      Found(line, found);
    }
  }

  // ----- Lines the client prints

  lemma {:induction false} CStrWhole(s: string)
    requires '\0' !in s
    ensures CStr(s) == s
    decreases |s|
  {
    if s != "" {
      CStrWhole(s[1..]);
    }
  }

  lemma CopiedLine(s: string)
    requires '\0' !in s && '\n' !in s && |s| < BUFFER_SIZE - 1
    ensures Copied(s + "\n") == s
  {
    CStrWhole(s + "\n");
  }

  /** No NUL and no newline: fit for a command line. */
  predicate Plain(s: string) {
    '\0' !in s && '\n' !in s
  }

  /** A line made of a command's word and its arguments, as long as it fits the buffers, is read
      as that command with those arguments. */
  lemma LineIsUnderstood(c: Command, rest: string)
    requires c != Unknown && (TakesArguments(c) || rest == "")
    requires Plain(rest) && |Word(c)| + |rest| <= BUFFER_SIZE - 2
    ensures Parsed(Word(c) + rest + "\n") == RequestOf(c, rest)
    ensures TakesText(c) ==> Parsed(Word(c) + rest + "\n") == Request(c, 0, 0, 0, 0, rest)
    ensures !TakesArguments(c) ==> Parsed(Word(c) + rest + "\n") == Request(c, 0, 0, 0, 0, "")
  {
    PlainRequest(c, rest);
    hide Word, Copied, Parsed, RequestOf;
    var copy := Word(c) + rest;
    WordShape(c);
    CopiedLine(copy);
    assert copy[|Word(c)|..] == rest;
    CommandIsItsWord(copy + "\n", c);
  }

  lemma PrintIsPlain(n: nat)
    ensures '\0' !in Print(n) && '\n' !in Print(n)
  {
  }

  lemma {:induction false} PrintIsShort(n: nat, k: nat, bound: nat)
    requires k >= 1 && bound == Power10(k) && n < bound
    ensures |Print(n)| <= k
    decreases k
  {
    if n >= 10 {
      PrintIsShort(n / 10, k - 1, Power10(k - 1));
    }
  }

  function Power10(k: nat): nat {
    if k == 0 then 1 else 10 * Power10(k - 1)
  }

  lemma PrintedU64IsShort(n: nat)
    requires n <= U64_MAX
    ensures |Print(n)| <= 20
  {
    assert Power10(10) == 100_0000_0000;
    assert Power10(20) == 100_0000_0000 * Power10(10);
    PrintIsShort(n, 20, Power10(20));
  }
}
