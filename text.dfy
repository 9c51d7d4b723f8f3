/** Character classes and the string operations of .NET that the application relies on:
  * trimming, splitting, joining, replacing, case folding and formatting of integers.
  * Character classes cover ASCII and the letters of the Vietnamese alphabet; the rest of
  * Unicode is treated as punctuation. */
module Text {

  // ---------------------------------------------------------------------------
  // Character classes
  // ---------------------------------------------------------------------------

  /** char.IsWhiteSpace and the regex class \s, restricted to the characters OCR output carries. */
  predicate IsWhite(c: char) {
    c == ' ' || c == '\t' || c == '\n' || c == '\r' || c == '\U{B}' || c == '\U{C}'
    || c == '\U{85}' || c == '\U{A0}'
  }

  predicate IsLineBreak(c: char) { c == '\r' || c == '\n' }

  /** The ASCII digits: the regex class [0-9] and the digits int.Parse accepts. */
  predicate IsDigit(c: char) { '0' <= c <= '9' }

  /** The regex class \d (Unicode decimal digits): ASCII, Arabic-Indic, Extended
    * Arabic-Indic, Devanagari and full-width digits. */
  predicate IsDecimalDigit(c: char) {
    IsDigit(c) || '\U{660}' <= c <= '\U{669}' || '\U{6F0}' <= c <= '\U{6F9}'
    || '\U{966}' <= c <= '\U{96F}' || '\U{FF10}' <= c <= '\U{FF19}'
  }

  predicate IsAsciiUpper(c: char) { 'A' <= c <= 'Z' }
  predicate IsAsciiLower(c: char) { 'a' <= c <= 'z' }

  /** Upper-case letters of Latin-1 (À..Þ without ×) whose lower case is 0x20 above. */
  predicate IsLatin1Upper(c: char) { '\U{C0}' <= c <= '\U{DE}' && c != '\U{D7}' }
  predicate IsLatin1Lower(c: char) { '\U{E0}' <= c <= '\U{FE}' && c != '\U{F7}' }

  /** Upper-case letters of the Vietnamese block U+1EA0..U+1EF9 and the Latin Extended
    * letters Ă Đ Ĩ Ũ Ơ Ư; each has its lower case one code point above. */
  predicate IsPairUpper(c: char) {
    ('\U{1EA0}' <= c <= '\U{1EF8}' && (c as int) % 2 == 0)
    || c == '\U{102}' || c == '\U{110}' || c == '\U{128}' || c == '\U{168}'
    || c == '\U{1A0}' || c == '\U{1AF}'
  }
  predicate IsPairLower(c: char) {
    ('\U{1EA1}' <= c <= '\U{1EF9}' && (c as int) % 2 == 1)
    || c == '\U{103}' || c == '\U{111}' || c == '\U{129}' || c == '\U{169}'
    || c == '\U{1A1}' || c == '\U{1B0}'
  }

  /** char.IsUpper */
  predicate IsUpper(c: char) { IsAsciiUpper(c) || IsLatin1Upper(c) || IsPairUpper(c) }
  /** char.IsLower */
  predicate IsLower(c: char) { IsAsciiLower(c) || IsLatin1Lower(c) || IsPairLower(c) }
  /** char.IsLetter, on the letters modelled here: the upper- and lower-case letters above.
    * The Latin-1 letters ª µ º ß ÿ, which have no upper- or lower-case partner within Latin-1
    * or none at all, are not among them. */
  predicate IsLetter(c: char) { IsUpper(c) || IsLower(c) }
  /** The regex class \w. */
  predicate IsWordChar(c: char) { IsLetter(c) || IsDecimalDigit(c) || c == '_' }
  predicate IsNonWordChar(c: char) { !IsWordChar(c) }

  /** An upper-case letter is not lower-case, so upper-casing keeps it. */
  lemma UpperIsFixed(c: char)
    requires IsUpper(c)
    ensures !IsLower(c) && ToUpperChar(c) == c
  {
  }

  /** char.ToLowerInvariant */
  function ToLowerChar(c: char): (r: char)
    ensures IsUpper(c) ==> IsLower(r)
    ensures !IsUpper(c) ==> r == c
  {
    if IsAsciiUpper(c) || IsLatin1Upper(c) then (c as int + 32) as char
    else if IsPairUpper(c) then (c as int + 1) as char
    else c
  }

  /** char.ToUpperInvariant */
  function ToUpperChar(c: char): (r: char)
    ensures IsLower(c) ==> IsUpper(r)
    ensures !IsLower(c) ==> r == c
  {
    if IsAsciiLower(c) || IsLatin1Lower(c) then (c as int - 32) as char
    else if IsPairLower(c) then (c as int - 1) as char
    else c
  }

  lemma CaseRoundTrip(c: char)
    ensures IsUpper(c) ==> ToUpperChar(ToLowerChar(c)) == c
    ensures IsLower(c) ==> ToLowerChar(ToUpperChar(c)) == c
    ensures IsLetter(ToUpperChar(c)) == IsLetter(c)
    ensures IsLetter(ToLowerChar(c)) == IsLetter(c)
  {
  }

  /** Folding both sides to upper case agrees with folding both to lower case. */
  lemma FoldAgree(a: char, b: char)
    ensures (ToUpperChar(a) == ToUpperChar(b)) == (ToLowerChar(a) == ToLowerChar(b))
  {
    if ToUpperChar(a) == ToUpperChar(b) {
      UpperSameLower(a, b);
    }
    if ToLowerChar(a) == ToLowerChar(b) {
      LowerSameUpper(a, b);
    }
  }

  lemma UpperSameLower(a: char, b: char)
    requires ToUpperChar(a) == ToUpperChar(b)
    ensures ToLowerChar(a) == ToLowerChar(b)
  {
    CaseRoundTrip(a);
    CaseRoundTrip(b);
  }

  lemma LowerSameUpper(a: char, b: char)
    requires ToLowerChar(a) == ToLowerChar(b)
    ensures ToUpperChar(a) == ToUpperChar(b)
  {
    CaseRoundTrip(a);
    CaseRoundTrip(b);
  }

  // ---------------------------------------------------------------------------
  // Case mapping of strings; OrdinalIgnoreCase equality
  // ---------------------------------------------------------------------------

  /** string.ToLowerInvariant */
  function Lower(s: string): (r: string)
    ensures |r| == |s| && forall i :: 0 <= i < |s| ==> r[i] == ToLowerChar(s[i])
  {
    seq(|s|, i requires 0 <= i < |s| => ToLowerChar(s[i]))
  }

  /** string.ToUpperInvariant; also the folding StringComparer.OrdinalIgnoreCase applies. */
  function Upper(s: string): (r: string)
    ensures |r| == |s| && forall i :: 0 <= i < |s| ==> r[i] == ToUpperChar(s[i])
  {
    seq(|s|, i requires 0 <= i < |s| => ToUpperChar(s[i]))
  }

  /** string.Equals(a, b, StringComparison.OrdinalIgnoreCase) */
  predicate EqualsIgnoreCase(a: string, b: string) { Upper(a) == Upper(b) }

  lemma UpperIdempotent(s: string)
    ensures Upper(Upper(s)) == Upper(s)
  {
  }

  lemma UpperConcat(a: string, b: string)
    ensures Upper(a + b) == Upper(a) + Upper(b)
  {
  }

  // ---------------------------------------------------------------------------
  // Blank strings and trimming
  // ---------------------------------------------------------------------------

  /** string.IsNullOrWhiteSpace (null is not modelled). */
  predicate IsBlank(s: string) { forall i :: 0 <= i < |s| ==> IsWhite(s[i]) }

  /** A text is the concatenation of three consecutive slices. */
  lemma {:induction false} SliceThree(s: string, o: nat, n: nat)
    requires o + n <= |s|
    ensures s == s[..o] + (s[o..o + n] + s[o + n..])
  {
    assert s[o..] == s[o..o + n] + s[o + n..];
    assert s == s[..o] + s[o..];
  }

  /** string.TrimStart(): the suffix left after the leading white space. */
  function TrimStart(s: string): string {
    if |s| > 0 && IsWhite(s[0]) then TrimStart(s[1..]) else s
  }

  /** TrimStart removes exactly the leading white space. */
  lemma {:induction false} TrimStartSpec(s: string)
    ensures var r := TrimStart(s);
      |r| <= |s| && r == s[|s| - |r|..]
      && (forall i :: 0 <= i < |s| - |r| ==> IsWhite(s[i]))
      && (r == [] || !IsWhite(r[0]))
  {
    if |s| > 0 && IsWhite(s[0]) {
      TrimStartSpec(s[1..]);
      var r := TrimStart(s);
      assert forall i :: 1 <= i < |s| ==> s[1..][i - 1] == s[i];
      assert s[1..][|s| - 1 - |r|..] == s[|s| - |r|..];
    }
  }

  /** string.TrimEnd(): the prefix left before the trailing white space. */
  function TrimEnd(s: string): string {
    if |s| > 0 && IsWhite(s[|s| - 1]) then TrimEnd(s[..|s| - 1]) else s
  }

  /** TrimEnd removes exactly the trailing white space. */
  lemma {:induction false} TrimEndSpec(s: string)
    ensures var r := TrimEnd(s);
      |r| <= |s| && r == s[..|r|]
      && (forall i :: |r| <= i < |s| ==> IsWhite(s[i]))
      && (r == [] || !IsWhite(r[|r| - 1]))
  {
    if |s| > 0 && IsWhite(s[|s| - 1]) {
      TrimEndSpec(s[..|s| - 1]);
      var r := TrimEnd(s);
      assert s[..|s| - 1][..|r|] == s[..|r|];
    }
  }

  /** Where the trimmed text starts. */
  function TrimOffset(s: string): (i: nat)
    ensures i <= |s|
  {
    TrimStartSpec(s);
    |s| - |TrimStart(s)|
  }

  /** string.Trim(): s without its leading and trailing white space. */
  function Trim(s: string): string {
    TrimEnd(TrimStart(s))
  }

  /** The trimmed text has no white space at either end, and is the slice of the text
    * between its leading and its trailing white space. */
  lemma TrimSpec(s: string)
    ensures var r := Trim(s);
      (r == [] || (!IsWhite(r[0]) && !IsWhite(r[|r| - 1])))
      && TrimOffset(s) + |r| <= |s| && r == s[TrimOffset(s)..TrimOffset(s) + |r|]
      && (forall j :: 0 <= j < TrimOffset(s) ==> IsWhite(s[j]))
      && (forall j :: TrimOffset(s) + |r| <= j < |s| ==> IsWhite(s[j]))
  {
    var t := TrimStart(s);
    TrimStartSpec(s);
    TrimEndSpec(t);
    var r := TrimEnd(t);
    assert r == t[..|r|];
    var o := TrimOffset(s);
    assert forall j :: 0 <= j < |t| ==> t[j] == s[o + j];
    assert r == s[o..o + |r|];
  }

  lemma TrimBlank(s: string)
    ensures IsBlank(s) <==> Trim(s) == []
  {
    TrimSpec(s);
    if !IsBlank(s) {
      var k :| 0 <= k < |s| && !IsWhite(s[k]);
      assert s[k] in Trim(s);
    }
  }

  /** A string that has no white space at either end is its own trim. */
  lemma TrimFixed(s: string)
    requires s == [] || (!IsWhite(s[0]) && !IsWhite(s[|s| - 1]))
    ensures Trim(s) == s
  {
  }

  lemma TrimIdempotent(s: string)
    ensures Trim(Trim(s)) == Trim(s)
  {
    TrimSpec(s);
    TrimFixed(Trim(s));
  }

  /** Leading white space does not change the trim. */
  lemma TrimAfterWhite(c: char, s: string)
    requires IsWhite(c)
    ensures Trim([c] + s) == Trim(s)
  {
    assert ([c] + s)[1..] == s;
  }

  /** A text that starts with a non-white character keeps it in front when trimmed. */
  lemma TrimKeepsHead(s: string)
    requires s != [] && !IsWhite(s[0])
    ensures Trim(s) != [] && Trim(s)[0] == s[0]
  {
    assert TrimStart(s) == s;
    TrimEndSpec(s);
  }

  /** string.Trim(ch): strips every leading and trailing occurrence of ch. */
  function TrimChar(s: string, ch: char): (r: string)
    ensures r == [] || (r[0] != ch && r[|r| - 1] != ch)
    ensures |r| <= |s|
    decreases |s|
  {
    if |s| > 0 && s[0] == ch then TrimChar(s[1..], ch)
    else if |s| > 0 && s[|s| - 1] == ch then TrimChar(s[..|s| - 1], ch)
    else s
  }

  // ---------------------------------------------------------------------------
  // Searching
  // ---------------------------------------------------------------------------

  predicate StartsWith(s: string, p: string) { |p| <= |s| && s[..|p|] == p }
  predicate EndsWith(s: string, p: string) { |p| <= |s| && s[|s| - |p|..] == p }

  /** string.Contains(p) */
  predicate Contains(s: string, p: string) {
    exists i :: 0 <= i <= |s| - |p| && OccursAt(s, p, i)
  }

  predicate OccursAt(s: string, p: string, i: nat) { i + |p| <= |s| && s[i..i + |p|] == p }

  predicate HasChar(s: string, c: char) { exists i :: 0 <= i < |s| && s[i] == c }

  // ---------------------------------------------------------------------------
  // Splitting on a set of separator characters; joining
  // ---------------------------------------------------------------------------

  /** string.Split(separators) with StringSplitOptions.None: the pieces between separators,
    * empty ones included. */
  function SplitOn(s: string, isSep: char -> bool): (r: seq<string>)
    ensures |r| >= 1
  {
    if s == [] then [[]]
    else
      var rest := SplitOn(s[1..], isSep);
      if isSep(s[0]) then [[]] + rest
      else [[s[0]] + rest[0]] + rest[1..]
  }

  /** A text without separators is a single piece. */
  lemma {:induction false} SplitNoSep(s: string, isSep: char -> bool)
    requires forall i :: 0 <= i < |s| ==> !isSep(s[i])
    ensures SplitOn(s, isSep) == [s]
  {
    if s != [] {
      SplitNoSep(s[1..], isSep);
      assert [s[0]] + s[1..] == s;
    }
  }

  /** No piece holds a separator. */
  lemma {:induction false} SplitPiecesNoSep(s: string, isSep: char -> bool)
    ensures forall k, i :: 0 <= k < |SplitOn(s, isSep)| && 0 <= i < |SplitOn(s, isSep)[k]| ==>
      !isSep(SplitOn(s, isSep)[k][i])
  {
    if s != [] {
      SplitPiecesNoSep(s[1..], isSep);
      var rest := SplitOn(s[1..], isSep);
      if !isSep(s[0]) {
        assert forall i :: 1 <= i < |[s[0]] + rest[0]| ==> ([s[0]] + rest[0])[i] == rest[0][i - 1];
      }
    }
  }

  /** A text made only of separators splits into empty pieces. */
  lemma {:induction false} SplitAllSep(s: string, isSep: char -> bool)
    requires forall i :: 0 <= i < |s| ==> isSep(s[i])
    ensures forall k :: 0 <= k < |SplitOn(s, isSep)| ==> SplitOn(s, isSep)[k] == []
  {
    if s != [] {
      SplitAllSep(s[1..], isSep);
    }
  }

  lemma {:induction false} SplitConcatSep(a: string, c: char, b: string, isSep: char -> bool)
    requires isSep(c)
    ensures SplitOn(a + [c] + b, isSep) == SplitOn(a, isSep) + SplitOn(b, isSep)
  {
    if a == [] {
      assert a + [c] + b == [c] + b;
      assert ([c] + b)[1..] == b;
    } else {
      assert (a + [c] + b)[1..] == a[1..] + [c] + b;
      SplitConcatSep(a[1..], c, b, isSep);
    }
  }

  /** A piece without separators glued to the front of a text extends its first piece. */
  lemma {:induction false} SplitConcatPlain(a: string, b: string, isSep: char -> bool)
    requires forall i :: 0 <= i < |a| ==> !isSep(a[i])
    ensures SplitOn(a + b, isSep) == [a + SplitOn(b, isSep)[0]] + SplitOn(b, isSep)[1..]
  {
    if a == [] {
      assert a + b == b;
      var r := SplitOn(b, isSep);
      assert a + r[0] == r[0];
      assert [r[0]] + r[1..] == r;
    } else {
      assert (a + b)[1..] == a[1..] + b;
      SplitConcatPlain(a[1..], b, isSep);
      assert [a[0]] + (a[1..] + SplitOn(b, isSep)[0]) == a + SplitOn(b, isSep)[0];
    }
  }

  /** StringSplitOptions.RemoveEmptyEntries */
  function RemoveEmpty(ps: seq<string>): (r: seq<string>)
    ensures forall k :: 0 <= k < |r| ==> r[k] != []
  {
    if ps == [] then []
    else if ps[0] == [] then RemoveEmpty(ps[1..])
    else [ps[0]] + RemoveEmpty(ps[1..])
  }

  lemma {:induction false} RemoveEmptyConcat(a: seq<string>, b: seq<string>)
    ensures RemoveEmpty(a + b) == RemoveEmpty(a) + RemoveEmpty(b)
  {
    if a == [] {
      assert a + b == b;
    } else {
      assert (a + b)[1..] == a[1..] + b;
      RemoveEmptyConcat(a[1..], b);
    }
  }

  /** text.Split('\r', '\n') with empty entries kept. */
  function RawLines(s: string): seq<string> { SplitOn(s, IsLineBreak) }

  /** text.Split(new[] { '\r', '\n' }, StringSplitOptions.RemoveEmptyEntries) */
  function Lines(s: string): seq<string> { RemoveEmpty(RawLines(s)) }

  /** string.Join(sep, parts) */
  function Join(sep: string, parts: seq<string>): (r: string)
  {
    if |parts| == 0 then []
    else if |parts| == 1 then parts[0]
    else parts[0] + sep + Join(sep, parts[1..])
  }

  lemma JoinSnoc(sep: string, parts: seq<string>, p: string)
    requires |parts| > 0
    ensures Join(sep, parts + [p]) == Join(sep, parts) + sep + p
  {
    if |parts| == 1 {
      assert parts + [p] == [parts[0], p];
    } else {
      assert (parts + [p])[1..] == parts[1..] + [p];
      JoinSnoc(sep, parts[1..], p);
    }
  }

  predicate NoLineBreak(s: string) { forall i :: 0 <= i < |s| ==> !IsLineBreak(s[i]) }

  /** Joining non-empty single-line texts with line breaks and splitting the result into
    * non-empty lines gives the texts back. */
  lemma {:induction false} LinesOfJoin(sep: string, parts: seq<string>)
    requires |sep| > 0 && forall i :: 0 <= i < |sep| ==> IsLineBreak(sep[i])
    requires forall k :: 0 <= k < |parts| ==> parts[k] != [] && NoLineBreak(parts[k])
    ensures Lines(Join(sep, parts)) == parts
  {
    if |parts| == 0 {
    } else if |parts| == 1 {
      SplitNoSep(parts[0], IsLineBreak);
      assert RemoveEmpty([parts[0]]) == [parts[0]] + RemoveEmpty([]);
    } else {
      var tail := Join(sep, parts[1..]);
      LinesOfJoin(sep, parts[1..]);
      LinesOfSep(sep, tail);
      SplitNoSep(parts[0], IsLineBreak);
      assert parts[0] + sep + tail == parts[0] + [sep[0]] + (sep[1..] + tail);
      SplitConcatSep(parts[0], sep[0], sep[1..] + tail, IsLineBreak);
      RemoveEmptyConcat([parts[0]], RawLines(sep[1..] + tail));
      assert Lines(parts[0] + sep + tail) == [parts[0]] + Lines(sep[1..] + tail);
    }
  }

  /** Leading line breaks only add empty pieces. */
  lemma {:induction false} LinesOfSep(sep: string, t: string)
    requires forall i :: 0 <= i < |sep| ==> IsLineBreak(sep[i])
    ensures |sep| > 0 ==> Lines(sep[1..] + t) == Lines(t)
  {
    if |sep| == 1 {
      assert sep[1..] + t == t;
    } else if |sep| > 1 {
      var s1 := sep[1..];
      LinesOfSep(s1, t);
      assert s1 + t == [] + [s1[0]] + (s1[1..] + t);
      SplitConcatSep([], s1[0], s1[1..] + t, IsLineBreak);
      RemoveEmptyConcat([[]], RawLines(s1[1..] + t));
      assert RemoveEmpty([[]]) == [];
    }
  }

  /** The number of lines that satisfy p (the counting loops over split lines). */
  function CountLines(ls: seq<string>, p: string -> bool): (n: nat)
    ensures n <= |ls|
  {
    if ls == [] then 0 else (if p(ls[0]) then 1 else 0) + CountLines(ls[1..], p)
  }

  lemma {:induction false} CountLinesConcat(a: seq<string>, b: seq<string>, p: string -> bool)
    ensures CountLines(a + b, p) == CountLines(a, p) + CountLines(b, p)
  {
    if a == [] {
      assert a + b == b;
    } else {
      assert (a + b)[1..] == a[1..] + b;
      CountLinesConcat(a[1..], b, p);
    }
  }

  /** Strings as a list of runs: an empty-free splitting on the non-word characters gives
    * the maximal runs of word characters (Regex.Split(s, @"\W+") without empty entries). */
  function Words(s: string): seq<string> { RemoveEmpty(SplitOn(s, IsNonWordChar)) }

  // ---------------------------------------------------------------------------
  // Replacing
  // ---------------------------------------------------------------------------

  /** Text between the occurrences of pat found scanning left to right. */
  function SplitStr(s: string, pat: string): (r: seq<string>)
    requires |pat| > 0
    ensures |r| >= 1
    decreases |s|
  {
    if |s| < |pat| then [s]
    else if s[..|pat|] == pat then [[]] + SplitStr(s[|pat|..], pat)
    else
      var rest := SplitStr(s[1..], pat);
      [[s[0]] + rest[0]] + rest[1..]
  }

  /** string.Replace(pat, rep): every occurrence found scanning left to right is replaced. */
  function Replace(s: string, pat: string, rep: string): (r: string)
    requires |pat| > 0
    decreases |s|
  {
    if |s| < |pat| then s
    else if s[..|pat|] == pat then rep + Replace(s[|pat|..], pat, rep)
    else [s[0]] + Replace(s[1..], pat, rep)
  }

  /** Replace splits the text at the occurrences of the pattern and glues the pieces back
    * with the replacement. */
  lemma {:induction false} ReplaceIsJoin(s: string, pat: string, rep: string)
    requires |pat| > 0
    ensures Replace(s, pat, rep) == Join(rep, SplitStr(s, pat))
    decreases |s|
  {
    if |s| < |pat| {
    } else if s[..|pat|] == pat {
      var rest := SplitStr(s[|pat|..], pat);
      assert SplitStr(s, pat) == [[]] + rest;
      assert Replace(s, pat, rep) == rep + Replace(s[|pat|..], pat, rep);
      ReplaceIsJoin(s[|pat|..], pat, rep);
      JoinCons(rep, [], rest);
    } else {
      var rest := SplitStr(s[1..], pat);
      assert SplitStr(s, pat) == [[s[0]] + rest[0]] + rest[1..];
      assert Replace(s, pat, rep) == [s[0]] + Replace(s[1..], pat, rep);
      ReplaceIsJoin(s[1..], pat, rep);
      JoinHead(rep, rest, s[0]);
    }
  }

  /** Gluing the pieces back with the pattern itself gives the text back. */
  lemma {:induction false} SplitStrJoin(s: string, pat: string)
    requires |pat| > 0
    ensures Join(pat, SplitStr(s, pat)) == s
    decreases |s|
  {
    if |s| < |pat| {
    } else if s[..|pat|] == pat {
      var rest := SplitStr(s[|pat|..], pat);
      assert SplitStr(s, pat) == [[]] + rest;
      SplitStrJoin(s[|pat|..], pat);
      JoinCons(pat, [], rest);
      assert s == pat + s[|pat|..];
    } else {
      var rest := SplitStr(s[1..], pat);
      assert SplitStr(s, pat) == [[s[0]] + rest[0]] + rest[1..];
      SplitStrJoin(s[1..], pat);
      JoinHead(pat, rest, s[0]);
      assert s == [s[0]] + s[1..];
    }
  }

  /** The first piece is a prefix of the text. */
  lemma {:induction false} SplitStrHead(s: string, pat: string)
    requires |pat| > 0
    ensures |SplitStr(s, pat)[0]| <= |s| && SplitStr(s, pat)[0] == s[..|SplitStr(s, pat)[0]|]
    decreases |s|
  {
    if |s| >= |pat| && s[..|pat|] != pat {
      SplitStrHead(s[1..], pat);
    }
  }

  /** No piece contains the pattern. */
  lemma {:induction false} SplitStrPieces(s: string, pat: string)
    requires |pat| > 0
    ensures forall k :: 0 <= k < |SplitStr(s, pat)| ==> !Contains(SplitStr(s, pat)[k], pat)
    decreases |s|
  {
    var ps := SplitStr(s, pat);
    if |s| < |pat| {
    } else if s[..|pat|] == pat {
      SplitStrPieces(s[|pat|..], pat);
      assert forall k :: 1 <= k < |ps| ==> ps[k] == SplitStr(s[|pat|..], pat)[k - 1];
      assert !Contains([], pat);
    } else {
      var rs := SplitStr(s[1..], pat);
      SplitStrPieces(s[1..], pat);
      SplitStrHead(s[1..], pat);
      NoOccurrenceCons(s, pat, rs[0]);
      assert forall k :: 1 <= k < |ps| ==> ps[k] == rs[k];
    }
  }

  lemma ReplaceIsSplitJoin(s: string, pat: string, rep: string)
    requires |pat| > 0
    ensures Replace(s, pat, rep) == Join(rep, SplitStr(s, pat))
    ensures Join(pat, SplitStr(s, pat)) == s
    ensures forall k :: 0 <= k < |SplitStr(s, pat)| ==> !Contains(SplitStr(s, pat)[k], pat)
  {
    ReplaceIsJoin(s, pat, rep);
    SplitStrJoin(s, pat);
    SplitStrPieces(s, pat);
  }

  lemma JoinCons(sep: string, p: string, ps: seq<string>)
    requires |ps| >= 1
    ensures Join(sep, [p] + ps) == p + sep + Join(sep, ps)
  {
    assert ([p] + ps)[1..] == ps;
  }

  /** Joining two non-empty lists is joining their joins with one more separator. */
  lemma {:induction false} JoinAppend(sep: string, a: seq<string>, b: seq<string>)
    requires a != [] && b != []
    ensures Join(sep, a + b) == Join(sep, a) + sep + Join(sep, b)
    decreases |a|
  {
    if |a| == 1 {
      assert a + b == [a[0]] + b;
      JoinCons(sep, a[0], b);
    } else {
      assert a + b == [a[0]] + (a[1..] + b);
      JoinCons(sep, a[0], a[1..] + b);
      JoinAppend(sep, a[1..], b);
      JoinCons(sep, a[0], a[1..]);
      assert [a[0]] + a[1..] == a;
    }
  }

  /** The non-empty lines of two texts glued with a line break. */
  lemma LinesAroundBreak(x: string, c: char, y: string)
    requires IsLineBreak(c)
    ensures Lines(x + [c] + y) == Lines(x) + Lines(y)
  {
    SplitConcatSep(x, c, y, IsLineBreak);
    RemoveEmptyConcat(RawLines(x), RawLines(y));
  }

  lemma JoinHead(sep: string, ps: seq<string>, c: char)
    requires |ps| >= 1
    ensures Join(sep, [[c] + ps[0]] + ps[1..]) == [c] + Join(sep, ps)
  {
    if |ps| > 1 {
      assert ([[c] + ps[0]] + ps[1..])[1..] == ps[1..];
    }
  }

  /** The first piece gets s[0] prepended only when no occurrence starts at 0. */
  lemma NoOccurrenceCons(s: string, pat: string, piece: string)
    requires |pat| > 0 && |s| >= |pat| && s[..|pat|] != pat
    requires !Contains(piece, pat)
    requires |piece| <= |s| - 1 && s[1..1 + |piece|] == piece
    ensures !Contains([s[0]] + piece, pat)
  {
    var t := [s[0]] + piece;
    forall i | 0 <= i <= |t| - |pat| ensures !OccursAt(t, pat, i) {
      if i == 0 {
        assert t[..|pat|] == s[..|pat|];
      } else {
        assert t[i..i + |pat|] == piece[i - 1..i - 1 + |pat|];
        assert !OccursAt(piece, pat, i - 1);
      }
    }
  }

  /** A text without the pattern is left alone by Replace. */
  lemma {:induction false} ReplaceAbsent(s: string, pat: string, rep: string)
    requires |pat| > 0 && !Contains(s, pat)
    ensures Replace(s, pat, rep) == s
    decreases |s|
  {
    if |s| >= |pat| {
      assert !OccursAt(s, pat, 0);
      if !Contains(s[1..], pat) {
        ReplaceAbsent(s[1..], pat, rep);
      } else {
        var i :| 0 <= i <= |s[1..]| - |pat| && OccursAt(s[1..], pat, i);
        assert s[i + 1..i + 1 + |pat|] == s[1..][i..i + |pat|];
        assert OccursAt(s, pat, i + 1);
      }
    }
  }

  // ---------------------------------------------------------------------------
  // Collapsing white space
  // ---------------------------------------------------------------------------

  /** Regex.Replace(s, @"\s+", " "): each maximal run of white space becomes one space. */
  function CollapseWhite(s: string): (r: string)
    ensures |r| <= |s|
    ensures r == [] <==> s == []
    ensures r != [] ==> (IsWhite(r[0]) <==> IsWhite(s[0]))
    ensures forall i :: 0 <= i < |r| ==> !IsLineBreak(r[i])
    ensures forall i :: 0 <= i < |r| ==> IsWhite(r[i]) ==> r[i] == ' '
    ensures forall i :: 0 <= i < |r| - 1 ==> !(IsWhite(r[i]) && IsWhite(r[i + 1]))
    decreases |s|
  {
    if s == [] then []
    else if IsWhite(s[0]) then
      TrimStartSpec(s);
      [' '] + CollapseWhite(TrimStart(s))
    else
      assert !IsLineBreak(s[0]);
      [s[0]] + CollapseWhite(s[1..])
  }

  // ---------------------------------------------------------------------------
  // Integers as text
  // ---------------------------------------------------------------------------

  function DigitChar(d: nat): (c: char)
    requires d < 10
    ensures IsDigit(c)
  {
    ['0', '1', '2', '3', '4', '5', '6', '7', '8', '9'][d]
  }

  /** n.ToString() for a non-negative n: decimal digits without leading zeros. */
  function NatToString(n: nat): (r: string)
    ensures |r| >= 1 && forall i :: 0 <= i < |r| ==> IsDigit(r[i])
    ensures n < 10 <==> |r| == 1
    ensures (|r| > 1 ==> r[0] != '0')
    ensures n >= 10 ==> |r| == |NatToString(n / 10)| + 1
  {
    if n < 10 then [DigitChar(n)] else NatToString(n / 10) + [DigitChar(n % 10)]
  }

  /** The value of a string of decimal digits. */
  function DigitsValue(s: string): nat
    requires forall i :: 0 <= i < |s| ==> IsDigit(s[i])
  {
    if s == [] then 0
    else
      assert IsDigit(s[|s| - 1]);
      DigitsValue(s[..|s| - 1]) * 10 + (s[|s| - 1] as int - '0' as int)
  }

  lemma {:induction false} NatToStringValue(n: nat)
    ensures DigitsValue(NatToString(n)) == n
  {
    var r := NatToString(n);
    if n < 10 {
      assert r[..0] == [];
    } else {
      NatToStringValue(n / 10);
      assert r[..|r| - 1] == NatToString(n / 10);
    }
  }

  /** Three or more digits exactly when the number is at least 100. */
  lemma {:induction false} NatToStringLength(n: nat)
    ensures |NatToString(n)| >= 3 <==> n >= 100
  {
    if n >= 10 {
      NatToStringLength(n / 10);
      assert n / 10 >= 10 <==> n >= 100;
    }
  }

  /** n.ToString("000000"): at least six digits, zero-padded on the left. */
  function PadZeros(n: nat, width: nat): (r: string)
    ensures |r| >= width && forall i :: 0 <= i < |r| ==> IsDigit(r[i])
    ensures DigitsValueOf(r) == n
  {
    var d := NatToString(n);
    NatToStringValue(n);
    var k := if width > |d| then width - |d| else 0;
    var r := Zeros(k) + d;
    ZerosValue(k, d);
    r
  }

  function DigitsValueOf(s: string): nat
  {
    if forall i :: 0 <= i < |s| ==> IsDigit(s[i]) then DigitsValue(s) else 0
  }

  function Zeros(k: nat): (r: string)
    ensures |r| == k && forall i :: 0 <= i < k ==> r[i] == '0'
  {
    seq(k, i => '0')
  }

  lemma {:induction false} ZerosValue(k: nat, d: string)
    requires forall i :: 0 <= i < |d| ==> IsDigit(d[i])
    ensures DigitsValue(Zeros(k) + d) == DigitsValue(d)
    decreases |d|
  {
    if d == [] {
      ZerosOnly(k);
      assert Zeros(k) + d == Zeros(k);
    } else {
      var s := Zeros(k) + d;
      assert s[..|s| - 1] == Zeros(k) + d[..|d| - 1];
      ZerosValue(k, d[..|d| - 1]);
    }
  }

  lemma {:induction false} ZerosOnly(k: nat)
    ensures DigitsValue(Zeros(k)) == 0
  {
    if k > 0 {
      assert Zeros(k)[..k - 1] == Zeros(k - 1);
      ZerosOnly(k - 1);
    }
  }
}
