/** The command-line OCR engine: a command template (tesseract by default) gets the image
  * path put in, and the command runs either directly, when it starts with the quoted path of
  * a tesseract found on the machine, or through the shell, quoted for cmd.exe or /bin/sh.
  * The tesseract search, the process and its output streams are inputs. */
module CommandLineOcr {
  import opened Wrappers
  import opened Text

  const DefaultTemplate := "tesseract \"{input}\" stdout"
  const InputToken := "{input}"
  const TesseractToken := "tesseract "
  /** The message of a failing run that wrote nothing to stderr. */
  const DefaultFailure := "OCR trả về mã lỗi."

  // ---------------------------------------------------------------------------
  // The constructor: the template
  // ---------------------------------------------------------------------------

  /** The template before the tesseract substitution: the default for a blank one. */
  function BaseTemplate(template: string): string {
    if IsBlank(template) then DefaultTemplate else template
  }

  /** CommandLineOcrService(commandTemplate): a template that names tesseract and holds no
    * backslash gets every "tesseract " replaced by the quoted path of the tesseract found
    * (tesseractPath, empty when none was found). */
  function CommandTemplate(template: string, tesseractPath: string): string {
    var t := BaseTemplate(template);
    if Contains(t, "tesseract") && !HasChar(t, '\\') && tesseractPath != [] then
      Replace(t, TesseractToken, "\"" + tesseractPath + "\" ")
    else t
  }

  /** A template is rewritten only when it names tesseract, holds no backslash and a
    * tesseract was found, and then only at its occurrences of "tesseract ": in every other
    * case it is kept (the default one for a blank template). */
  lemma {:induction false} CommandTemplateShape(template: string, tesseractPath: string)
    ensures var t := BaseTemplate(template);
      && ((!Contains(t, "tesseract") || HasChar(t, '\\') || tesseractPath == [] || !Contains(t, TesseractToken))
            ==> CommandTemplate(template, tesseractPath) == t)
      && (IsBlank(template) ==> t == DefaultTemplate)
      && (!IsBlank(template) ==> t == template)
  {
    var t := BaseTemplate(template);
    if !Contains(t, TesseractToken) {
      ReplaceAbsent(t, TesseractToken, "\"" + tesseractPath + "\" ");
    }
  }

  /** Building the service from its own template changes nothing more once the tesseract
    * path holds a backslash, as every Windows path does. */
  lemma CommandTemplateIdempotent(template: string, tesseractPath: string)
    requires HasChar(tesseractPath, '\\')
    ensures CommandTemplate(CommandTemplate(template, tesseractPath), tesseractPath) == CommandTemplate(template, tesseractPath)
  {
    var t := BaseTemplate(template);
    var rep := "\"" + tesseractPath + "\" ";
    var r := CommandTemplate(template, tesseractPath);
    assert !IsBlank(t) by {
      if IsBlank(template) {
        assert !IsWhite(DefaultTemplate[0]);
      }
    }
    if Contains(t, "tesseract") && !HasChar(t, '\\') {
      var i :| 0 <= i < |tesseractPath| && tesseractPath[i] == '\\';
      assert rep[i + 1] == '\\';
      if Contains(t, TesseractToken) {
        ReplaceKeepsChar(t, TesseractToken, rep, '\\');
        BackslashNotBlank(r);
      } else {
        ReplaceAbsent(t, TesseractToken, rep);
      }
    }
  }

  lemma BackslashNotBlank(s: string)
    requires HasChar(s, '\\')
    ensures !IsBlank(s)
  {
    var i :| 0 <= i < |s| && s[i] == '\\';
    assert !IsWhite(s[i]);
  }

  /** A replacement that happens at least once brings the replacement's characters in. */
  lemma {:induction false} ReplaceKeepsChar(s: string, pat: string, rep: string, c: char)
    requires |pat| > 0 && Contains(s, pat) && HasChar(rep, c)
    ensures HasChar(Replace(s, pat, rep), c)
    decreases |s|
  {
    if s[..|pat|] == pat {
      var j :| 0 <= j < |rep| && rep[j] == c;
      assert Replace(s, pat, rep)[j] == c;
    } else {
      var i :| 0 <= i <= |s| - |pat| && OccursAt(s, pat, i);
      assert i != 0;
      assert OccursAt(s[1..], pat, i - 1) by {
        assert s[1..][i - 1..i - 1 + |pat|] == s[i..i + |pat|];
      }
      ReplaceKeepsChar(s[1..], pat, rep, c);
      var j :| 0 <= j < |Replace(s[1..], pat, rep)| && Replace(s[1..], pat, rep)[j] == c;
      assert Replace(s, pat, rep)[j + 1] == c;
    }
  }

  // ---------------------------------------------------------------------------
  // The command line
  // ---------------------------------------------------------------------------

  /** _commandTemplate.Replace("{input}", imagePath) */
  function CommandLine(template: string, imagePath: string): string {
    Replace(template, InputToken, imagePath)
  }

  /** Every "{input}" is replaced: the command is the template's pieces between its
    * "{input}" tokens, none of which holds the token, glued with the image path. */
  lemma CommandLineShape(template: string, imagePath: string)
    ensures CommandLine(template, imagePath) == Join(imagePath, SplitStr(template, InputToken))
    ensures Join(InputToken, SplitStr(template, InputToken)) == template
    ensures forall k :: 0 <= k < |SplitStr(template, InputToken)| ==> !Contains(SplitStr(template, InputToken)[k], InputToken)
  {
    ReplaceIsSplitJoin(template, InputToken, imagePath);
  }

  // ---------------------------------------------------------------------------
  // BuildProcessStart: running the command through the shell
  // ---------------------------------------------------------------------------

  datatype StartInfo = StartInfo(FileName: string, Arguments: string)

  /** s.Replace(q, e + q): every q gets an e in front of it. */
  function Escape(s: string, e: char, q: char): string {
    Replace(s, [q], [e, q])
  }

  lemma EscapeHead(s: string, e: char, q: char)
    requires s != []
    ensures Escape(s, e, q) == (if s[0] == q then [e, q] else [s[0]]) + Escape(s[1..], e, q)
  {
  }

  /** Replacing e + q by q undoes the escaping. */
  lemma {:induction false} EscapeRoundTrip(s: string, e: char, q: char)
    ensures Replace(Escape(s, e, q), [e, q], [q]) == s
    decreases |s|
  {
    if s != [] {
      EscapeHead(s, e, q);
      EscapeRoundTrip(s[1..], e, q);
      var rest := Escape(s[1..], e, q);
      if s[0] == q {
        assert ([e, q] + rest)[..2] == [e, q];
        assert ([e, q] + rest)[2..] == rest;
      } else if rest == [] {
        assert s[1..] == [];
      } else {
        var t := [s[0]] + rest;
        EscapeHead(s[1..], e, q);
        assert t[0] == s[0] && t[1] == rest[0];
        assert rest[0] != q || s[0] != e;
        assert t[..2] != [e, q];
        assert t[1..] == rest;
      }
    }
  }

  /** Once escaped with a different character, every q follows an e. */
  lemma {:induction false} EscapePreceded(s: string, e: char, q: char)
    requires e != q
    ensures var t := Escape(s, e, q);
      forall i :: 0 <= i < |t| && t[i] == q ==> i > 0 && t[i - 1] == e
    decreases |s|
  {
    if s != [] {
      EscapeHead(s, e, q);
      EscapePreceded(s[1..], e, q);
      var head := if s[0] == q then [e, q] else [s[0]];
      var rest := Escape(s[1..], e, q);
      var t := head + rest;
      forall i | 0 <= i < |t| && t[i] == q ensures i > 0 && t[i - 1] == e {
        if i >= |head| {
          assert t[i] == rest[i - |head|];
          if i - |head| > 0 {
            assert t[i - 1] == rest[i - |head| - 1];
          }
        }
      }
    }
  }

  /** BuildProcessStart(commandLine) */
  function BuildProcessStart(commandLine: string, isWindows: bool): StartInfo {
    if isWindows then StartInfo("cmd.exe", "/C \"" + Escape(commandLine, '"', '"') + "\"")
    else StartInfo("/bin/sh", "-c \"" + Escape(commandLine, '\\', '"') + "\"")
  }

  /** On Windows the command goes to cmd.exe inside one pair of quotes with its own quotes
    * doubled, and undoubling gives it back; elsewhere it goes to /bin/sh inside one pair of
    * quotes with each of its quotes after a backslash, and removing those gives it back. */
  lemma BuildProcessStartShape(commandLine: string, isWindows: bool)
    ensures var s := BuildProcessStart(commandLine, isWindows);
      var a := s.Arguments;
      && |a| >= 5 && a[|a| - 1] == '"'
      && (isWindows ==> && s.FileName == "cmd.exe" && a[..4] == "/C \""
                        && Replace(a[4..|a| - 1], "\"\"", "\"") == commandLine)
      && (!isWindows ==> && s.FileName == "/bin/sh" && a[..4] == "-c \""
                         && Replace(a[4..|a| - 1], "\\\"", "\"") == commandLine
                         && forall i :: 4 <= i < |a| - 1 && a[i] == '"' ==> i > 4 && a[i - 1] == '\\')
  {
    var s := BuildProcessStart(commandLine, isWindows);
    var a := s.Arguments;
    if isWindows {
      var inner := Escape(commandLine, '"', '"');
      assert a[4..|a| - 1] == inner;
      EscapeRoundTrip(commandLine, '"', '"');
    } else {
      var inner := Escape(commandLine, '\\', '"');
      assert a[4..|a| - 1] == inner;
      EscapeRoundTrip(commandLine, '\\', '"');
      EscapePreceded(commandLine, '\\', '"');
      forall i | 4 <= i < |a| - 1 && a[i] == '"' ensures i > 4 && a[i - 1] == '\\' {
        assert inner[i - 4] == a[i];
        if i > 4 { assert inner[i - 5] == a[i - 1]; }
      }
    }
  }

  // ---------------------------------------------------------------------------
  // The two quoted-command patterns
  // ---------------------------------------------------------------------------

  /** The first index from i on that holds a quote, or |s|. */
  function QuoteFrom(s: string, i: nat): (k: nat)
    requires i <= |s|
    ensures i <= k <= |s| && (k < |s| ==> s[k] == '"')
    ensures forall j :: i <= j < k ==> s[j] != '"'
    decreases |s| - i
  {
    if i == |s| || s[i] == '"' then i else QuoteFrom(s, i + 1)
  }

  /** "([^"]+)" at the start of s: the text between the quotes and what follows. */
  function QuotedPrefix(s: string): Option<(string, string)> {
    if |s| >= 1 && s[0] == '"' then
      var k := QuoteFrom(s, 1);
      if 1 < k < |s| then Some((s[1..k], s[k + 1..])) else None
    else None
  }

  /** The length of the run of white space at the start of s. */
  function WhiteRun(s: string): (n: nat)
    ensures n <= |s| && IsBlank(s[..n]) && (n < |s| ==> !IsWhite(s[n]))
  {
    if s == [] || !IsWhite(s[0]) then 0
    else
      var n := WhiteRun(s[1..]) + 1;
      assert s[..n] == [s[0]] + s[1..][..n - 1];
      n
  }

  /** ^"([^"]+)"\s+"([^"]+)" : the executable, the image and what follows. */
  function TwoQuoted(cmd: string): Option<(string, string, string)> {
    match QuotedPrefix(cmd)
    case None => None
    case Some((exe, r1)) =>
      var w := WhiteRun(r1);
      if w == 0 then None
      else
        match QuotedPrefix(r1[w..])
        case None => None
        case Some((img, r2)) => Some((exe, img, r2))
  }

  predicate NoLineFeed(s: string) { forall i :: 0 <= i < |s| ==> s[i] != '\n' }

  /** $ matches at the end and before a final line feed: the text a match must cover. */
  function Body(rest: string): string {
    if |rest| >= 1 && rest[|rest| - 1] == '\n' then rest[..|rest| - 1] else rest
  }

  /** \s+(.+)$ after the image, in the regex's own terms: some non-empty white run followed by
    * a non-empty text without a line feed covers the body. */
  predicate ArgsPatternTail(rest: string) {
    var b := Body(rest);
    exists k :: 1 <= k < |b| && IsBlank(b[..k]) && NoLineFeed(b[k..])
  }

  /** \s+(\w+)(.*)$ after the image: a white run, a run of word characters, then a text
    * without a line feed. */
  predicate OutputTypePatternTail(rest: string) {
    var b := Body(rest);
    exists k, m :: 1 <= k < m <= |b| && IsBlank(b[..k]) && (forall j :: k <= j < m ==> IsWordChar(b[j])) && NoLineFeed(b[m..])
  }

  /** Where the greedy \s+ stops: the whole white run, but one character short of the end
    * so that .+ still gets one. */
  function TailStart(b: string): nat
    requires |b| >= 1
  {
    var w := WhiteRun(b);
    if w < |b| then w else |b| - 1
  }

  /** The matcher the code computes: the greedy split. */
  predicate ArgsTailMatches(rest: string) {
    var b := Body(rest);
    |b| >= 2 && TailStart(b) >= 1 && NoLineFeed(b[TailStart(b)..])
  }

  /** The third group of the first pattern. */
  function ArgsGroup(rest: string): string
    requires ArgsTailMatches(rest)
  {
    var b := Body(rest);
    b[TailStart(b)..]
  }

  /** The greedy split finds a match exactly when the pattern has one. */
  lemma ArgsTailMatchesIff(rest: string)
    ensures ArgsTailMatches(rest) <==> ArgsPatternTail(rest)
  {
    var b := Body(rest);
    if ArgsPatternTail(rest) {
      var k :| 1 <= k < |b| && IsBlank(b[..k]) && NoLineFeed(b[k..]);
      var w := WhiteRun(b);
      assert w >= k;
      var t := TailStart(b);
      assert forall i :: 0 <= i < |b[t..]| ==> b[t..][i] == b[k..][i + t - k];
    }
    if ArgsTailMatches(rest) {
      var t := TailStart(b);
      assert IsBlank(b[..t]) by {
        assert forall i :: 0 <= i < t ==> b[..t][i] == b[..WhiteRun(b)][i];
      }
    }
  }

  /** Any command the second pattern matches, the first matches too, so the code's second
    * attempt never decides anything. */
  lemma SecondPatternSubsumed(rest: string)
    requires OutputTypePatternTail(rest)
    ensures ArgsPatternTail(rest)
  {
    var b := Body(rest);
    var k, m :| 1 <= k < m <= |b| && IsBlank(b[..k]) && (forall j :: k <= j < m ==> IsWordChar(b[j])) && NoLineFeed(b[m..]);
    assert NoLineFeed(b[k..]) by {
      forall i | 0 <= i < |b[k..]| ensures b[k..][i] != '\n' {
        if k + i < m {
          assert IsWordChar(b[k + i]);
        } else {
          assert b[k..][i] == b[m..][k + i - m];
        }
      }
    }
  }

  /** The process the service starts: tesseract directly when a tesseract was found, the
    * command names it and the first pattern matches; otherwise the shell. */
  function StartInfoFor(cmd: string, tesseractPath: string, isWindows: bool): StartInfo {
    if tesseractPath != [] && Contains(cmd, tesseractPath) then
      match TwoQuoted(cmd)
      case Some((exe, img, rest)) =>
        if ArgsTailMatches(rest) then StartInfo(exe, "\"" + img + "\" " + Trim(ArgsGroup(rest)))
        else if OutputTypePatternTail(rest) then
          SecondPatternSubsumed(rest);
          ArgsTailMatchesIff(rest);
          assert false;
          BuildProcessStart(cmd, isWindows)
        else BuildProcessStart(cmd, isWindows)
      case None => BuildProcessStart(cmd, isWindows)
    else BuildProcessStart(cmd, isWindows)
  }

  /** A command of the form "exe" "image" args, with a found tesseract inside it, starts the
    * executable directly with the quoted image and the trimmed arguments. */
  lemma DirectStart(exe: string, img: string, args: string, tesseractPath: string, isWindows: bool)
    requires exe != [] && img != [] && !HasChar(exe, '"') && !HasChar(img, '"')
    requires args != [] && !IsWhite(args[0]) && NoLineFeed(args)
    requires tesseractPath != [] && Contains("\"" + exe + "\" \"" + img + "\" " + args, tesseractPath)
    ensures StartInfoFor("\"" + exe + "\" \"" + img + "\" " + args, tesseractPath, isWindows)
      == StartInfo(exe, "\"" + img + "\" " + Trim(args))
  {
    var cmd := "\"" + exe + "\" \"" + img + "\" " + args;
    assert cmd == "\"" + exe + "\" \"" + img + "\"" + (" " + args);
    TwoQuotedOf(exe, img, " " + args);
    ArgsAfterSpace(args);
    assert TwoQuoted(cmd) == Some((exe, img, " " + args));
  }

  lemma TwoQuotedOf(exe: string, img: string, r2: string)
    requires exe != [] && img != [] && !HasChar(exe, '"') && !HasChar(img, '"')
    ensures TwoQuoted("\"" + exe + "\" \"" + img + "\"" + r2) == Some((exe, img, r2))
  {
    var cmd := "\"" + exe + "\" \"" + img + "\"" + r2;
    var r1 := " \"" + img + "\"" + r2;
    assert cmd == "\"" + exe + "\"" + r1;
    QuoteAfter(exe, r1);
    assert QuotedPrefix(cmd) == Some((exe, r1));
    assert WhiteRun(r1) == 1 by {
      assert r1[1..][0] == '"';
    }
    assert r1[1..] == "\"" + img + "\"" + r2;
    QuoteAfter(img, r2);
  }

  lemma ArgsAfterSpace(args: string)
    requires args != [] && !IsWhite(args[0]) && NoLineFeed(args)
    ensures ArgsTailMatches(" " + args) && ArgsGroup(" " + args) == args
  {
    var r2 := " " + args;
    assert Body(r2) == r2;
    assert WhiteRun(r2) == 1 by {
      assert r2[1..][0] == args[0];
    }
    assert r2[1..] == args;
  }

  /** The quote after a text without quotes ends the quoted prefix. */
  lemma QuoteAfter(x: string, rest: string)
    requires x != [] && !HasChar(x, '"')
    ensures var s := "\"" + x + "\"" + rest; QuoteFrom(s, 1) == |x| + 1 && s[1..|x| + 1] == x && s[|x| + 2..] == rest
  {
    var s := "\"" + x + "\"" + rest;
    QuoteFromSkips(s, 1, |x| + 1);
  }

  lemma {:induction false} QuoteFromSkips(s: string, i: nat, k: nat)
    requires i <= k < |s| && s[k] == '"' && forall j :: i <= j < k ==> s[j] != '"'
    ensures QuoteFrom(s, i) == k
    decreases k - i
  {
    if i < k {
      QuoteFromSkips(s, i + 1, k);
    }
  }

  // ---------------------------------------------------------------------------
  // ExtractTextAsync: the outcome of one run
  // ---------------------------------------------------------------------------

  /** A run: the image was missing, so no process was built; or the process that was started
    * and what the call returns or throws. */
  datatype OcrRun = ImageNotFound | Ran(start: StartInfo, result: Result<string, string>)

  /** StringBuilder.AppendLine for every line received. */
  function AppendLines(lines: seq<string>, newline: string): string {
    if lines == [] then [] else AppendLines(lines[..|lines| - 1], newline) + lines[|lines| - 1] + newline
  }

  /** ExtractTextAsync(imagePath) for the service's template: the command's start info,
    * then the trimmed standard output of a zero exit, or the error output (a fixed message
    * when there is none) of any other. */
  function ExtractText(template: string, imagePath: string, imageExists: bool, tesseractPath: string,
                       isWindows: bool, exitCode: int, stdout: seq<string>, stderr: seq<string>): OcrRun {
    if !imageExists then ImageNotFound
    else
      var newline := if isWindows then "\r\n" else "\n";
      var start := StartInfoFor(CommandLine(template, imagePath), tesseractPath, isWindows);
      if exitCode != 0 then Ran(start, Err(if stderr != [] then AppendLines(stderr, newline) else DefaultFailure))
      else Ran(start, Ok(Trim(AppendLines(stdout, newline))))
  }

  lemma {:induction false} AppendLinesNonEmpty(lines: seq<string>, newline: string)
    requires lines != [] && newline != []
    ensures AppendLines(lines, newline) != []
  {
  }

  /** A missing image builds no process; a zero exit returns the standard output without
    * surrounding white space; any other exit fails with a message that is never empty. */
  lemma ExtractTextShape(template: string, imagePath: string, imageExists: bool, tesseractPath: string,
                         isWindows: bool, exitCode: int, stdout: seq<string>, stderr: seq<string>)
    ensures var run := ExtractText(template, imagePath, imageExists, tesseractPath, isWindows, exitCode, stdout, stderr);
      && (run.ImageNotFound? <==> !imageExists)
      && (run.Ran? ==> run.start == StartInfoFor(CommandLine(template, imagePath), tesseractPath, isWindows))
      && (run.Ran? ==> (run.result.Ok? <==> exitCode == 0))
      && (run.Ran? && run.result.Ok? ==>
            && run.result.value == Trim(AppendLines(stdout, if isWindows then "\r\n" else "\n"))
            && (run.result.value != [] ==> !IsWhite(run.result.value[0]) && !IsWhite(run.result.value[|run.result.value| - 1])))
      && (run.Ran? && run.result.Err? ==> run.result.error != [])
      && (run.Ran? && run.result.Err? && stderr == [] ==> run.result.error == DefaultFailure)
  {
    var newline := if isWindows then "\r\n" else "\n";
    TrimSpec(AppendLines(stdout, newline));
    if stderr != [] {
      AppendLinesNonEmpty(stderr, newline);
    }
  }
}
