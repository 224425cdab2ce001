/** Rewriting one assignment of a dotenv file, byte for byte.

    A byte is written as the character of the same code. The scanner goes line by line and carries
    the quote a multi-line value left open; only lines outside such values count. */
module Dotenv {
  import opened Common

  const NAME: string := "SPACEWORKS_OCI_DIGEST"

  datatype DotenvError = MultilineAssignment | UnterminatedQuote | DuplicateAssignment

  // ---- Lines ---------------------------------------------------------------------------------

  predicate Newline(c: char) { c == '\n' || c == '\r' }

  predicate Plain(s: string) {
    forall i | 0 <= i < |s| :: !Newline(s[i])
  }

  /** Length of the first line, its ending included; a lone CR ends a line too. */
  function LineLength(t: string): (n: nat)
    requires t != ""
    ensures 0 < n <= |t|
  {
    if t[0] == '\n' then 1
    else if t[0] == '\r' then (if |t| > 1 && t[1] == '\n' then 2 else 1)
    else if |t| == 1 then 1
    else 1 + LineLength(t[1..])
  }

  function Lines(t: string): seq<string> {
    if t == "" then [] else [t[..LineLength(t)]] + Lines(t[LineLength(t)..])
  }

  function Join(lines: seq<string>): string {
    if lines == [] then "" else lines[0] + Join(lines[1..])
  }

  predicate EndsLf(s: string) {
    s != "" && s[|s| - 1] == '\n'
  }

  predicate EndsCrLf(s: string) {
    |s| >= 2 && s[|s| - 2] == '\r' && s[|s| - 1] == '\n'
  }

  predicate StartsWith(s: string, head: string) {
    |head| <= |s| && s[..|head|] == head
  }

  /** The line ending the rewriter puts back; a lone CR is not one of them. */
  function Ending(line: string): string {
    if EndsCrLf(line) then "\r\n" else if EndsLf(line) then "\n" else ""
  }

  predicate LoneCr(line: string) { line != "" && line[|line| - 1] == '\r' }

  // ---- Quotes ----------------------------------------------------------------------------------

  /** Whether the quote occurs unescaped, starting with or without a pending backslash. */
  predicate Closes(value: string, quote: char, escaped: bool) {
    value != "" &&
    if escaped then Closes(value[1..], quote, false)
    else if value[0] == '\\' then Closes(value[1..], quote, true)
    else value[0] == quote || Closes(value[1..], quote, false)
  }

  method QuoteClosed(value: string, quote: char) returns (closed: bool)
    requires quote != '\\'
    ensures closed == Closes(value, quote, false)
  {
    var escaped := false;
    assert value[0..] == value;
    for i := 0 to |value|
      invariant Closes(value, quote, false) == Closes(value[i..], quote, escaped)
    {
      assert value[i..][1..] == value[i + 1..];
      if escaped {
        escaped := false;
      } else if value[i] == '\\' {
        escaped := true;
      } else if value[i] == quote {
        return true;
      }
    }
    return false;
  }

  // ---- Keys --------------------------------------------------------------------------------------

  predicate Blank(c: char) { c == ' ' || c == '\t' }

  predicate Space(c: char) { c in {' ', '\t', '\n', '\r', 11 as char, 12 as char} }

  predicate AllBlank(s: string) {
    forall i | 0 <= i < |s| :: Blank(s[i])
  }

  function SkipBlanks(s: string): string {
    if s != "" && Blank(s[0]) then SkipBlanks(s[1..]) else s
  }

  function SkipSpaces(s: string): string {
    if s != "" && Space(s[0]) then SkipSpaces(s[1..]) else s
  }

  predicate Spelling(name: string) {
    name == NAME || name == "'" + NAME + "'" || name == "\"" + NAME + "\""
  }

  /** The pattern as written: blanks, an optional export with blanks, the name, blanks, a sign. */
  ghost predicate KeyPattern(line: string) {
    exists head: string, rest: string :: KeyHead(head) && line == head + ("=" + rest)
  }

  ghost predicate KeyHead(head: string) {
    exists lead: string, name: string, gap: string :: KeyParts(head, lead, name, gap)
  }

  ghost predicate KeyParts(head: string, lead: string, name: string, gap: string) {
    && AllBlank(lead) && AllBlank(gap) && Spelling(name)
    && (head == lead + (name + gap)
        || exists sep: string :: sep != "" && AllBlank(sep) && head == lead + ("export" + (sep + (name + gap))))
  }

  function AfterName(s: string): Option<string> {
    if StartsWith(s, NAME) then Some(s[|NAME|..])
    else if StartsWith(s, "'" + NAME + "'") then Some(s[|NAME| + 2..])
    else if StartsWith(s, "\"" + NAME + "\"") then Some(s[|NAME| + 2..])
    else None
  }

  /** The same pattern read left to right without backtracking. */
  predicate KeyMatch(line: string) {
    var body := SkipBlanks(line);
    var named := if StartsWith(body, "export") && |body| > 6 && Blank(body[6]) then SkipBlanks(body[6..]) else body;
    AfterName(named).Some? && StartsWith(SkipBlanks(AfterName(named).value), "=")
  }

  // ---- Scanning ----------------------------------------------------------------------------------

  function Value(line: string): string {
    if SkipSpaces(line) != "" && SkipSpaces(line)[0] == '#' then "" else SkipBlanks(AfterSign(line))
  }

  function AfterSign(line: string): string {
    if line == "" then "" else if line[0] == '=' then line[1..] else AfterSign(line[1..])
  }

  predicate Quote(c: char) { c == '\'' || c == '"' }

  /** The quote a line leaves open, if any. */
  function Opens(line: string): Option<char> {
    var value := Value(line);
    if value != "" && Quote(value[0]) && !Closes(value[1..], value[0], false) then Some(value[0]) else None
  }

  datatype Scan = Scan(positions: seq<nat>, quote: Option<char>) | Multiline

  function Step(scan: Scan, line: string, index: nat): Scan {
    match scan
    case Multiline => Multiline
    case Scan(positions, Some(quote)) => if Closes(line, quote, false) then Scan(positions, None) else scan
    case Scan(positions, None) =>
      if KeyMatch(line) then (if Opens(line).Some? then Multiline else Scan(positions + [index], None))
      else Scan(positions, Opens(line))
  }

  /** The scanner's state after the first n lines. */
  function ScanTo(lines: seq<string>, n: nat): Scan
    requires n <= |lines|
  {
    if n == 0 then Scan([], None) else Step(ScanTo(lines, n - 1), lines[n - 1], n - 1)
  }

  function Scanned(lines: seq<string>): Scan {
    ScanTo(lines, |lines|)
  }

  // ---- The rewriter --------------------------------------------------------------------------------

  function Assignment(digest: string): string {
    NAME + "=" + digest
  }

  function Separator(original: string): string {
    if original == "" || EndsLf(original) then "" else "\n"
  }

  function Payload(original: string, digest: string): Result<string, DotenvError> {
    var lines := Lines(original);
    var scan := Scanned(lines);
    if scan.Multiline? then Failure(MultilineAssignment)
    else if scan.quote.Some? then Failure(UnterminatedQuote)
    else if |scan.positions| > 1 then Failure(DuplicateAssignment)
    else if scan.positions == [] then Success(original + Separator(original) + Assignment(digest) + "\n")
    else
      PositionsInRange(lines, |lines|);
      assert scan.positions[0] in scan.positions;
      var i := scan.positions[0];
      Success(Join(lines[i := Assignment(digest) + Ending(lines[i])]))
  }

  lemma {:induction false} PositionsInRange(lines: seq<string>, n: nat)
    requires n <= |lines|
    ensures ScanTo(lines, n).Scan? ==> forall p | p in ScanTo(lines, n).positions ::
              p < n && KeyMatch(lines[p]) && Opens(lines[p]).None? && ScanTo(lines, p).Scan? && ScanTo(lines, p).quote.None?
  {
    if n > 0 { PositionsInRange(lines, n - 1); }
  }

  method DotenvPayload(original: string, digest: string) returns (payload: Result<string, DotenvError>)
    ensures payload == Payload(original, digest)
  {
    var lines := Lines(original);
    var multiline, positions, quote := ScanLines(lines);
    if multiline {
      return Failure(MultilineAssignment);
    }
    if quote.Some? {
      return Failure(UnterminatedQuote);
    }
    if |positions| > 1 {
      return Failure(DuplicateAssignment);
    }
    if positions != [] {
      PositionsInRange(lines, |lines|);
      var index := positions[0];
      assert index in positions;
      lines := lines[index := Assignment(digest) + Ending(lines[index])];
      return Success(Join(lines));
    }
    return Success(original + Separator(original) + Assignment(digest) + "\n");
  }

  method ScanLines(lines: seq<string>) returns (multiline: bool, positions: seq<nat>, quote: Option<char>)
    ensures Scanned(lines) == if multiline then Multiline else Scan(positions, quote)
  {
    multiline, positions, quote := false, [], None;
    for index := 0 to |lines|
      invariant ScanTo(lines, index) == Scan(positions, quote)
      invariant quote.Some? ==> Quote(quote.value)
    {
      var line := lines[index];
      if quote.Some? {
        var closed := QuoteClosed(line, quote.value);
        quote := if closed then None else quote;
        continue;
      }
      var matched := KeyMatch(line);
      positions := if matched then positions + [index] else positions;
      var value := Value(line);
      if value != "" && Quote(value[0]) {
        var closed := QuoteClosed(value[1..], value[0]);
        if !closed {
          if matched {
            MultilineStays(lines, index + 1);
            return true, positions, quote;
          }
          quote := Some(value[0]);
        }
      }
    }
  }

  lemma {:induction false} MultilineStays(lines: seq<string>, n: nat)
    requires n <= |lines| && ScanTo(lines, n).Multiline?
    ensures Scanned(lines).Multiline?
    decreases |lines| - n
  {
    if n < |lines| { MultilineStays(lines, n + 1); }
  }

  // ---- The key pattern ---------------------------------------------------------------------------

  lemma {:induction false} SkipBlanksPast(lead: string, rest: string)
    requires AllBlank(lead)
    ensures SkipBlanks(lead + rest) == SkipBlanks(rest)
  {
    if lead == "" {
      assert lead + rest == rest;
    } else {
      SkipBlanksPast(lead[1..], rest);
      assert (lead + rest)[1..] == lead[1..] + rest;
    }
  }

  lemma {:induction false} SkippedLead(s: string) returns (lead: string)
    ensures AllBlank(lead) && s == lead + SkipBlanks(s)
    ensures SkipBlanks(s) != "" ==> !Blank(SkipBlanks(s)[0])
    ensures lead == "" ==> SkipBlanks(s) == s
    ensures s != "" && Blank(s[0]) ==> lead != ""
  {
    if s != "" && Blank(s[0]) {
      var tail := SkippedLead(s[1..]);
      lead := [s[0]] + tail;
    } else {
      lead := "";
    }
  }

  lemma NameSkipsNothing(name: string, rest: string)
    requires Spelling(name)
    ensures SkipBlanks(name + rest) == name + rest
    ensures !StartsWith(name + rest, "export")
    ensures AfterName(name + rest) == Some(rest)
  {
    var s := name + rest;
    assert s[0] == name[0];
    assert name == NAME ==> s[..|NAME|] == NAME && s[|NAME|..] == rest;
    assert name == "'" + NAME + "'" ==> s[..|NAME| + 2] == name && s[|NAME| + 2..] == rest;
    assert name == "\"" + NAME + "\"" ==> s[..|NAME| + 2] == name && s[|NAME| + 2..] == rest;
    if StartsWith(s, NAME) { assert s[0] == NAME[0]; }
    if StartsWith(s, "'" + NAME + "'") { assert s[0] == '\''; }
    NotExport(s);
  }

  lemma NotExport(s: string)
    requires s != "" && s[0] != 'e'
    ensures !StartsWith(s, "export")
  {
    assert |s| >= 6 ==> s[..6][0] == s[0];
  }

  lemma NameThenSign(name: string, gap: string, rest: string)
    requires Spelling(name) && AllBlank(gap)
    ensures var s := name + (gap + ("=" + rest));
            AfterName(s).Some? && StartsWith(SkipBlanks(AfterName(s).value), "=")
  {
    NameSkipsNothing(name, gap + ("=" + rest));
    SkipBlanksPast(gap, "=" + rest);
    assert SkipBlanks("=" + rest) == "=" + rest;
    assert ("=" + rest)[..1] == "=";
  }

  lemma PatternMatches(line: string)
    requires KeyPattern(line)
    ensures KeyMatch(line)
  {
    var head: string, rest: string :| KeyHead(head) && line == head + ("=" + rest);
    var lead: string, name: string, gap: string :| KeyParts(head, lead, name, gap);
    if head == lead + (name + gap) {
      Reassociate(lead, name, gap, "=" + rest);
      PlainKeyMatches(lead, name, gap, rest);
    } else {
      var sep: string :| sep != "" && AllBlank(sep) && head == lead + ("export" + (sep + (name + gap)));
      ReassociateExport(lead, sep, name, gap, "=" + rest);
      ExportedKeyMatches(lead, sep, name, gap, rest);
    }
  }

  lemma Reassociate(a: string, b: string, c: string, rest: string)
    ensures (a + (b + c)) + rest == a + (b + (c + rest))
  {}

  lemma ReassociateExport(a: string, sep: string, b: string, c: string, rest: string)
    ensures (a + ("export" + (sep + (b + c)))) + rest == a + ("export" + (sep + (b + (c + rest))))
  {
    Reassociate(sep, b, c, rest);
    Reassociate(a, "export", sep + (b + c), rest);
  }

  lemma PlainKeyMatches(lead: string, name: string, gap: string, rest: string)
    requires AllBlank(lead) && AllBlank(gap) && Spelling(name)
    ensures KeyMatch(lead + (name + (gap + ("=" + rest))))
  {
    NameThenSign(name, gap, rest);
    NameSkipsNothing(name, gap + ("=" + rest));
    SkipBlanksPast(lead, name + (gap + ("=" + rest)));
  }

  lemma ExportedKeyMatches(lead: string, sep: string, name: string, gap: string, rest: string)
    requires AllBlank(lead) && sep != "" && AllBlank(sep) && AllBlank(gap) && Spelling(name)
    ensures KeyMatch(lead + ("export" + (sep + (name + (gap + ("=" + rest))))))
  {
    var named := name + (gap + ("=" + rest));
    NameThenSign(name, gap, rest);
    NameSkipsNothing(name, gap + ("=" + rest));
    var body := "export" + (sep + named);
    SkipBlanksPast(lead, body);
    assert body[0] == 'e' && SkipBlanks(body) == body;
    assert body[..6] == "export" && body[6..] == sep + named && body[6] == sep[0];
    SkipBlanksPast(sep, named);
  }

  lemma NamedDecomposes(s: string) returns (name: string, gap: string, rest: string)
    requires AfterName(s).Some? && StartsWith(SkipBlanks(AfterName(s).value), "=")
    ensures Spelling(name) && AllBlank(gap) && s == name + (gap + ("=" + rest))
  {
    var after := AfterName(s).value;
    name := s[..|s| - |after|];
    assert s == name + after;
    gap := SkippedLead(after);
    rest := SkipBlanks(after)[1..];
    assert SkipBlanks(after) == "=" + rest;
  }

  lemma MatchIsPattern(line: string)
    requires KeyMatch(line)
    ensures KeyPattern(line)
  {
    var body := SkipBlanks(line);
    var lead := SkippedLead(line);
    if StartsWith(body, "export") && |body| > 6 && Blank(body[6]) {
      var named := SkipBlanks(body[6..]);
      var sep := SkippedLead(body[6..]);
      var name, gap, rest := NamedDecomposes(named);
      assert body == "export" + body[6..];
      ExportedIsPattern(lead, sep, name, gap, rest);
    } else {
      var name, gap, rest := NamedDecomposes(body);
      PlainIsPattern(lead, name, gap, rest);
    }
  }

  lemma PlainIsPattern(lead: string, name: string, gap: string, rest: string)
    requires AllBlank(lead) && AllBlank(gap) && Spelling(name)
    ensures KeyPattern(lead + (name + (gap + ("=" + rest))))
  {
    Reassociate(lead, name, gap, "=" + rest);
    assert KeyParts(lead + (name + gap), lead, name, gap);
    assert KeyHead(lead + (name + gap));
  }

  lemma ExportedIsPattern(lead: string, sep: string, name: string, gap: string, rest: string)
    requires AllBlank(lead) && sep != "" && AllBlank(sep) && AllBlank(gap) && Spelling(name)
    ensures KeyPattern(lead + ("export" + (sep + (name + (gap + ("=" + rest))))))
  {
    ReassociateExport(lead, sep, name, gap, "=" + rest);
    assert KeyParts(lead + ("export" + (sep + (name + gap))), lead, name, gap);
    assert KeyHead(lead + ("export" + (sep + (name + gap))));
  }

  /** The left-to-right reading is the pattern. */
  lemma KeyMatchIsPattern(line: string)
    ensures KeyMatch(line) <==> KeyPattern(line)
  {
    if KeyMatch(line) { MatchIsPattern(line); }
    if KeyPattern(line) { PatternMatches(line); }
  }

  // ---- Lines and their concatenation -------------------------------------------------------------

  predicate IsLine(line: string) {
    line != "" && LineLength(line) == |line|
  }

  /** One line may follow another without the two being read differently. */
  predicate Follows(line: string, next: string) {
    && line != "" && next != "" && Newline(line[|line| - 1])
    && (line[|line| - 1] == '\r' ==> next[0] != '\n')
  }

  predicate Shaped(lines: seq<string>) {
    && (forall k | 0 <= k < |lines| :: IsLine(lines[k]))
    && (forall k | 0 < k < |lines| :: Follows(lines[k - 1], lines[k]))
  }

  lemma {:induction false} JoinAppend(front: seq<string>, rest: seq<string>)
    ensures Join(front + rest) == Join(front) + Join(rest)
  {
    if front == [] {
      assert front + rest == rest;
    } else {
      JoinAppend(front[1..], rest);
      assert (front + rest)[1..] == front[1..] + rest;
    }
  }

  /** The first line is the first line of whatever may follow it. */
  lemma {:induction false} FirstLineStays(line: string, rest: string)
    requires IsLine(line) && (rest == "" || Follows(line, rest))
    ensures LineLength(line + rest) == |line|
    decreases |line|
  {
    var t := line + rest;
    if rest == "" {
      assert t == line;
    } else if |line| > 1 && !Newline(line[0]) {
      assert t[1..] == line[1..] + rest;
      FirstLineStays(line[1..], rest);
    }
  }

  /** The converse: where the first line is cut off, it is a line and the rest may follow it. */
  lemma {:induction false} FirstLineCut(t: string)
    requires t != ""
    ensures IsLine(t[..LineLength(t)])
    ensures t[LineLength(t)..] != "" ==> Follows(t[..LineLength(t)], t[LineLength(t)..])
  {
    var n := LineLength(t);
    if !Newline(t[0]) && |t| > 1 {
      FirstLineCut(t[1..]);
      assert t[..n][1..] == t[1..][..n - 1];
      assert t[n..] == t[1..][n - 1..];
    }
  }

  lemma {:induction false} LinesAreShaped(t: string)
    ensures Join(Lines(t)) == t && Shaped(Lines(t))
    ensures t != "" ==> Lines(t) != [] && Lines(t)[0] != "" && Lines(t)[0][0] == t[0]
    decreases |t|
  {
    if t != "" {
      var n := LineLength(t);
      var tail := Lines(t[n..]);
      FirstLineCut(t);
      LinesAreShaped(t[n..]);
      ShapedCons(t[..n], tail);
      assert t[..n] + t[n..] == t;
    }
  }

  lemma ShapedCons(line: string, tail: seq<string>)
    requires IsLine(line) && Shaped(tail) && (tail != [] ==> Follows(line, tail[0]))
    ensures Shaped([line] + tail) && Join([line] + tail) == line + Join(tail)
  {
    var lines := [line] + tail;
    assert lines[1..] == tail;
    forall k | 0 < k < |lines| ensures Follows(lines[k - 1], lines[k]) {
      if k > 1 { assert Follows(tail[k - 2], tail[k - 1]); }
    }
  }

  /** Splitting is the inverse of concatenation, on exactly the shaped lists of lines. */
  lemma {:induction false} LinesOfJoin(lines: seq<string>)
    requires Shaped(lines)
    ensures Lines(Join(lines)) == lines
    ensures lines != [] ==> Join(lines) != "" && Join(lines)[0] == lines[0][0]
    decreases |lines|
  {
    if lines != [] {
      var line, tail := lines[0], lines[1..];
      assert Shaped(tail) by {
        forall k | 0 < k < |tail| ensures Follows(tail[k - 1], tail[k]) { assert Follows(lines[k], lines[k + 1]); }
      }
      LinesOfJoin(tail);
      if tail != [] { assert Follows(lines[0], lines[1]); }
      FirstLineStays(line, Join(tail));
      assert Join(lines)[..|line|] == line && Join(lines)[|line|..] == Join(tail);
    }
  }

  /** Plain content and one of the four endings. */
  predicate IsEnding(e: string) { e == "" || e == "\n" || e == "\r\n" || e == "\r" }

  lemma {:induction false} PlainThenEnding(content: string, e: string)
    requires Plain(content) && IsEnding(e) && content + e != ""
    ensures IsLine(content + e)
    ensures e != "" ==> Newline((content + e)[|content + e| - 1])
    ensures e == "" ==> !Newline((content + e)[|content + e| - 1])
    ensures (content + e)[|content + e| - 1] == '\r' <==> e == "\r"
  {
    if content == "" {
      assert content + e == e;
    } else if content + e != [content[0]] {
      assert (content + e)[1..] == content[1..] + e;
      PlainThenEnding(content[1..], e);
    }
  }

  lemma {:induction false} LineParts(line: string) returns (content: string, e: string)
    requires IsLine(line)
    ensures Plain(content) && IsEnding(e) && line == content + e
  {
    if line[0] == '\n' {
      content, e := "", "\n";
    } else if line[0] == '\r' {
      content, e := "", if |line| > 1 then "\r\n" else "\r";
    } else if |line| == 1 {
      content, e := line, "";
    } else {
      var tail;
      tail, e := LineParts(line[1..]);
      content := [line[0]] + tail;
    }
  }

  // ---- Facts about the assignment and its line -----------------------------------------------------

  /** A digest as the provisioner passes it has neither newlines nor quotes. */
  predicate PlainDigest(d: string) {
    forall i | 0 <= i < |d| :: !Newline(d[i]) && !Quote(d[i])
  }

  /** A line without its ending, a lone CR included. */
  function Chomp(line: string): string {
    if EndsCrLf(line) then line[..|line| - 2]
    else if EndsLf(line) || LoneCr(line) then line[..|line| - 1]
    else line
  }

  lemma EndingIs(content: string, e: string)
    requires Plain(content) && IsEnding(e)
    ensures Ending(content + e) == (if e == "\r" then "" else e)
    ensures LoneCr(content + e) <==> e == "\r"
    ensures Chomp(content + e) == content
  {
    var t := content + e;
    assert e == "" ==> t == content;
    assert |content| > 0 ==> t[|content| - 1] == content[|content| - 1];
    assert t[..|content|] == content;
  }

  lemma {:induction false} AfterSignPast(head: string, rest: string)
    requires forall i | 0 <= i < |head| :: head[i] != '='
    ensures AfterSign(head + ("=" + rest)) == rest
  {
    var t := head + ("=" + rest);
    if head == "" {
      assert t == "=" + rest;
    } else {
      assert t[1..] == head[1..] + ("=" + rest);
      AfterSignPast(head[1..], rest);
    }
  }

  lemma AssignmentAppend(d: string, s: string)
    ensures Assignment(d) + s == Assignment(d + s)
  {}

  /** Any assignment is recognised. */
  lemma AssignmentMatches(value: string)
    ensures KeyMatch(Assignment(value))
  {
    assert Assignment(value) == "" + (NAME + ("" + ("=" + value)));
    PlainKeyMatches("", NAME, "", value);
  }

  lemma AssignmentPlain(d: string)
    requires Plain(d)
    ensures Plain(Assignment(d))
  {}

  /** The written line is recognised and leaves no quote open. */
  lemma AssignmentLine(d: string, e: string)
    requires PlainDigest(d) && IsEnding(e)
    ensures KeyMatch(Assignment(d) + e) && Opens(Assignment(d) + e).None? && Plain(Assignment(d))
  {
    AssignmentAppend(d, e);
    AssignmentMatches(d + e);
    AssignmentPlain(d);
    assert Assignment(d + e) == NAME + ("=" + (d + e));
    NoQuoteOpened(d + e, Assignment(d + e));
  }

  lemma NoQuoteOpened(value: string, line: string)
    requires line == NAME + ("=" + value) && forall i | 0 <= i < |value| :: !Quote(value[i])
    ensures Opens(line).None?
  {
    AfterSignPast(NAME, value);
    assert line[0] == 'S' && SkipSpaces(line) == line;
    var lead := SkippedLead(value);
    var skipped := SkipBlanks(value);
    if skipped != "" { assert skipped[0] == value[|lead|]; }
  }

  // ---- Scanning a file with one line replaced --------------------------------------------------------

  lemma {:induction false} ScanPrefix(a: seq<string>, b: seq<string>, n: nat)
    requires n <= |a| && n <= |b| && a[..n] == b[..n]
    ensures ScanTo(a, n) == ScanTo(b, n)
  {
    if n > 0 {
      assert a[n - 1] == a[..n][n - 1] && b[n - 1] == b[..n][n - 1];
      assert a[..n - 1] == a[..n][..n - 1] && b[..n - 1] == b[..n][..n - 1];
      ScanPrefix(a, b, n - 1);
    }
  }

  lemma {:induction false} ScanReplaced(lines: seq<string>, i: nat, line: string, n: nat)
    requires i < |lines| && n <= |lines|
    requires ScanTo(lines, i).Scan? && ScanTo(lines, i).quote.None?
    requires KeyMatch(lines[i]) && Opens(lines[i]).None? && KeyMatch(line) && Opens(line).None?
    ensures ScanTo(lines[i := line], n) == ScanTo(lines, n)
  {
    if n > 0 { ScanReplaced(lines, i, line, n - 1); }
  }

  lemma {:induction false} PositionStays(lines: seq<string>, p: nat, m: nat, n: nat)
    requires m <= n <= |lines| && ScanTo(lines, n).Scan?
    ensures ScanTo(lines, m).Scan?
    ensures p in ScanTo(lines, m).positions ==> p in ScanTo(lines, n).positions
    ensures p in ScanTo(lines, n).positions && p < m ==> p in ScanTo(lines, m).positions
    decreases n
  {
    if m < n { PositionStays(lines, p, m, n - 1); }
  }

  /** What the scan found: no assignment, or exactly one at line i. */
  predicate Located(original: string, i: nat) {
    var lines := Lines(original);
    i < |lines| && Scanned(lines) == Scan([i], None)
  }

  predicate Unlocated(original: string) {
    Scanned(Lines(original)) == Scan([], None)
  }

  lemma SuccessIsLocated(original: string, digest: string)
    ensures Payload(original, digest).Success? <==> Unlocated(original) || exists i :: Located(original, i)
  {
    var lines := Lines(original);
    var scan := Scanned(lines);
    if scan.Scan? && scan.quote.None? && |scan.positions| == 1 {
      PositionsInRange(lines, |lines|);
      assert scan.positions[0] in scan.positions;
      assert scan.positions == [scan.positions[0]];
      assert Located(original, scan.positions[0]);
    }
  }

  lemma LocatedLine(original: string, i: nat)
    requires Located(original, i)
    ensures KeyMatch(Lines(original)[i]) && Opens(Lines(original)[i]).None?
    ensures ScanTo(Lines(original), i) == Scan([], None)
  {
    var lines := Lines(original);
    PositionsInRange(lines, |lines|);
    assert i in Scanned(lines).positions;
    var before := ScanTo(lines, i);
    PositionsInRange(lines, i);
    if before.positions != [] {
      var p := before.positions[0];
      assert p in before.positions;
      PositionStays(lines, p, i, |lines|);
    }
  }

  // ---- The file after a replacement ------------------------------------------------------------------

  /** The assignment's line ends in a lone CR and is not the last: its ending is lost. */
  predicate Fuses(original: string, i: nat) {
    i + 1 < |Lines(original)| && LoneCr(Lines(original)[i])
  }

  lemma ShapedReplaced(lines: seq<string>, i: nat, line: string)
    requires Shaped(lines) && i < |lines| && IsLine(line) && line[0] != '\n'
    requires i + 1 < |lines| ==> Follows(line, lines[i + 1])
    ensures Shaped(lines[i := line])
  {
    var lines' := lines[i := line];
    forall k | 0 < k < |lines'| ensures Follows(lines'[k - 1], lines'[k]) {
      assert Follows(lines[k - 1], lines[k]);
    }
  }

  /** The file with line i replaced by the assignment. */
  function Written(text: string, i: nat, d: string): string
    requires i < |Lines(text)|
  {
    Join(Lines(text)[i := Assignment(d) + Ending(Lines(text)[i])])
  }

  /** Every other line keeps its bytes and place. */
  lemma ReplacedLines(text: string, i: nat, d: string)
    requires i < |Lines(text)| && PlainDigest(d) && !Fuses(text, i)
    ensures Lines(Written(text, i, d)) == Lines(text)[i := Assignment(d) + Ending(Lines(text)[i])]
  {
    LinesAreShaped(text);
    ReplacedShaped(Lines(text), i, d);
    LinesOfJoin(Lines(text)[i := Assignment(d) + Ending(Lines(text)[i])]);
  }

  lemma ReplacedShaped(lines: seq<string>, i: nat, d: string)
    requires Shaped(lines) && i < |lines| && PlainDigest(d) && (i + 1 < |lines| ==> !LoneCr(lines[i]))
    ensures Shaped(lines[i := Assignment(d) + Ending(lines[i])])
  {
    var content, e := LineParts(lines[i]);
    EndingIs(content, e);
    PlainThenEnding(content, e);
    AssignmentPlain(d);
    PlainThenEnding(Assignment(d), Ending(lines[i]));
    if i + 1 < |lines| { assert Follows(lines[i + 1 - 1], lines[i + 1]); }
    ShapedReplaced(lines, i, Assignment(d) + Ending(lines[i]));
  }

  function Glued(lines: seq<string>, i: nat, line: string): seq<string>
    requires i + 1 < |lines|
  {
    lines[..i] + [line] + lines[i + 2..]
  }

  /** Otherwise the next line is glued to the assignment. */
  lemma FusedLines(text: string, i: nat, d: string)
    requires Fuses(text, i) && PlainDigest(d)
    ensures Lines(Written(text, i, d)) == Glued(Lines(text), i, Assignment(d) + Lines(text)[i + 1])
  {
    var lines := Lines(text);
    LinesAreShaped(text);
    var content, e := LineParts(lines[i]);
    EndingIs(content, e);
    var content', e' := GluedLine(d, lines[i + 1]);
    PlainThenEnding(Assignment(d + content'), e');
    FusedJoin(lines, i, Assignment(d));
    FusedShaped(lines, i, Assignment(d));
    LinesOfJoin(Glued(lines, i, Assignment(d) + lines[i + 1]));
  }

  /** What the glued line reads as. */
  lemma GluedLine(d: string, next: string) returns (content: string, e: string)
    requires PlainDigest(d) && IsLine(next)
    ensures Plain(content) && IsEnding(e) && next == content + e && Chomp(next) == content
    ensures Assignment(d) + next == Assignment(d + content) + e && Plain(Assignment(d + content))
  {
    content, e := LineParts(next);
    EndingIs(content, e);
    GluedText(d, content, e);
    AssignmentPlain(d + content);
  }

  lemma GluedText(d: string, content: string, e: string)
    ensures Assignment(d) + (content + e) == Assignment(d + content) + e
  {
    AssignmentAppend(d, content);
    assert Assignment(d) + (content + e) == (Assignment(d) + content) + e;
  }

  lemma FusedJoin(lines: seq<string>, i: nat, line: string)
    requires i + 1 < |lines|
    ensures Join(lines[i := line + ""]) == Join(Glued(lines, i, line + lines[i + 1]))
  {
    var rest := lines[i + 2..];
    assert line + "" == line;
    assert lines[i := line] == lines[..i] + ([line, lines[i + 1]] + rest);
    JoinAppend(lines[..i], [line, lines[i + 1]] + rest);
    assert ([line, lines[i + 1]] + rest)[1..] == [lines[i + 1]] + rest;
    assert ([lines[i + 1]] + rest)[1..] == rest;
    assert lines[..i] + [line + lines[i + 1]] + rest == lines[..i] + ([line + lines[i + 1]] + rest);
    JoinAppend(lines[..i], [line + lines[i + 1]] + rest);
    assert ([line + lines[i + 1]] + rest)[1..] == rest;
    assert line + (lines[i + 1] + Join(rest)) == (line + lines[i + 1]) + Join(rest);
  }

  lemma FusedShaped(lines: seq<string>, i: nat, line: string)
    requires Shaped(lines) && i + 1 < |lines| && line != "" && line[0] != '\n' && IsLine(line + lines[i + 1])
    ensures Shaped(Glued(lines, i, line + lines[i + 1]))
  {
    var glued := Glued(lines, i, line + lines[i + 1]);
    forall k | 0 <= k < |glued| ensures IsLine(glued[k]) {
      if k > i { assert glued[k] == lines[k + 1]; }
    }
    forall k | 0 < k < |glued| ensures Follows(glued[k - 1], glued[k]) {
      if k < i {
        assert Follows(lines[k - 1], lines[k]);
      } else if k == i {
        assert Follows(lines[k - 1], lines[k]) && glued[k - 1] == lines[k - 1];
      } else {
        assert Follows(lines[k], lines[k + 1]) && glued[k] == lines[k + 1];
      }
    }
  }

  // ---- Reading the assignment back -------------------------------------------------------------------

  /** What a fresh scan of a file finds assigned. */
  function Get(text: string): Option<string> {
    GetFrom(Lines(text))
  }

  function GetFrom(lines: seq<string>): Option<string> {
    var scan := Scanned(lines);
    if scan.Scan? && scan.quote.None? && |scan.positions| == 1 && scan.positions[0] < |lines|
       && StartsWith(Chomp(lines[scan.positions[0]]), NAME + "=")
    then Some(Chomp(lines[scan.positions[0]])[|NAME| + 1..])
    else None
  }

  lemma GetLine(lines: seq<string>, i: nat, value: string, e: string)
    requires i < |lines| && Scanned(lines) == Scan([i], None)
    requires lines[i] == Assignment(value) + e && Plain(Assignment(value)) && IsEnding(e)
    ensures GetFrom(lines) == Some(value)
  {
    EndingIs(Assignment(value), e);
    assert Assignment(value)[..|NAME| + 1] == NAME + "=";
    assert Assignment(value)[|NAME| + 1..] == value;
  }

  /** After a replacement that glues nothing, the file scans as before. */
  lemma ReplacedLocated(text: string, i: nat, d: string)
    requires Located(text, i) && PlainDigest(d) && !Fuses(text, i)
    ensures Located(Written(text, i, d), i)
  {
    var lines := Lines(text);
    LinesAreShaped(text);
    var content, e := LineParts(lines[i]);
    EndingIs(content, e);
    ReplacedLines(text, i, d);
    LocatedLine(text, i);
    AssignmentLine(d, Ending(lines[i]));
    ScanReplaced(lines, i, Assignment(d) + Ending(lines[i]), |lines|);
  }

  /** An empty line changes nothing for a scanner outside quotes. */
  lemma EmptyLineIsNeutral(e: string, scan: Scan, index: nat)
    requires e == "\r" || e == "\r\n"
    requires scan.Scan? && scan.quote.None?
    ensures Step(scan, e, index) == scan
  {
    if e == "\r" {
      assert e[1..] == "";
    } else {
      assert e[1..] == "\n" && e[1..][1..] == "";
      assert AfterSign(e) == AfterSign("\n") == "";
    }
    assert SkipBlanks(e) == e && AfterName(e).None?;
    assert AfterSign(e) == "" && Value(e) == "";
  }

  /** Two adjacent lines scanned as the one they are glued into: the scan goes on alike. */
  lemma {:induction false} ScanShifted(lines: seq<string>, glued: seq<string>, i: nat, n: nat)
    requires i + 1 < |lines| && |glued| == |lines| - 1 && Scanned(lines) == Scan([i], None)
    requires forall k | i < k < |glued| :: glued[k] == lines[k + 1]
    requires i < n <= |glued| && ScanTo(glued, i + 1) == ScanTo(lines, i + 2)
    ensures ScanTo(glued, n) == ScanTo(lines, n + 1)
    decreases n
  {
    if n > i + 1 {
      ScanShifted(lines, glued, i, n - 1);
      OnlyOnePosition(lines, i, n + 1);
      OnlyOnePosition(lines, i, n);
      StepIndexFree(ScanTo(lines, n), lines[n], n, n - 1);
    }
  }

  lemma StepIndexFree(scan: Scan, line: string, a: nat, b: nat)
    requires scan.Scan? && Step(scan, line, a).Scan? && |Step(scan, line, a).positions| == |scan.positions|
    ensures Step(scan, line, b) == Step(scan, line, a)
  {}

  /** Once the only assignment is behind, no further one is found. */
  lemma OnlyOnePosition(lines: seq<string>, i: nat, n: nat)
    requires i < n <= |lines| && Scanned(lines) == Scan([i], None)
    ensures ScanTo(lines, n).Scan? && ScanTo(lines, n).positions == [i]
  {
    PositionStays(lines, i, n, |lines|);
    var ps := ScanTo(lines, n).positions;
    assert i in Scanned(lines).positions && i in ps;
    forall k | 0 <= k < |ps| ensures ps[k] == i {
      assert ps[k] in ps;
      PositionStays(lines, ps[k], n, |lines|);
    }
    PositionsDiffer(lines, n);
    FirstTwoDiffer(ps);
    assert ps == [i];
  }

  lemma FirstTwoDiffer(ps: seq<nat>)
    requires forall a, b | 0 <= a < b < |ps| :: ps[a] < ps[b]
    ensures |ps| >= 2 ==> ps[0] < ps[1]
  {}

  lemma {:induction false} PositionsDiffer(lines: seq<string>, n: nat)
    requires n <= |lines| && ScanTo(lines, n).Scan?
    ensures forall a, b | 0 <= a < b < |ScanTo(lines, n).positions| ::
              ScanTo(lines, n).positions[a] < ScanTo(lines, n).positions[b]
  {
    if n > 0 {
      PositionsDiffer(lines, n - 1);
      PositionsInRange(lines, n - 1);
      var before := ScanTo(lines, n - 1).positions;
      assert forall a | 0 <= a < |before| :: before[a] in before;
    }
  }

  /** The glued line is recognised, so if the glued file scans at all its assignment is there. */
  lemma GluedScan(lines: seq<string>, i: nat, line: string)
    requires i + 1 < |lines| && Scanned(lines) == Scan([i], None) && ScanTo(lines, i) == Scan([], None)
    requires KeyMatch(lines[i]) && Opens(lines[i]).None? && KeyMatch(line)
    ensures Scanned(Glued(lines, i, line)).Scan? ==> i in Scanned(Glued(lines, i, line)).positions
    ensures Opens(line).None? && (lines[i + 1] == "\r" || lines[i + 1] == "\r\n") ==>
              Scanned(Glued(lines, i, line)) == Scan([i], None)
  {
    GluedFound(lines, i, line);
    if Opens(line).None? && (lines[i + 1] == "\r" || lines[i + 1] == "\r\n") { GluedToEmpty(lines, i, line); }
  }

  lemma GluedFound(lines: seq<string>, i: nat, line: string)
    requires i + 1 < |lines| && ScanTo(lines, i) == Scan([], None) && KeyMatch(line)
    ensures Scanned(Glued(lines, i, line)).Scan? ==> i in Scanned(Glued(lines, i, line)).positions
  {
    var glued := Glued(lines, i, line);
    GluedHead(lines, i, line);
    if Scanned(glued).Scan? { PositionStays(glued, i, i + 1, |glued|); }
  }

  lemma GluedToEmpty(lines: seq<string>, i: nat, line: string)
    requires i + 1 < |lines| && Scanned(lines) == Scan([i], None) && ScanTo(lines, i) == Scan([], None)
    requires KeyMatch(lines[i]) && Opens(lines[i]).None? && KeyMatch(line) && Opens(line).None?
    requires lines[i + 1] == "\r" || lines[i + 1] == "\r\n"
    ensures Scanned(Glued(lines, i, line)) == Scan([i], None)
  {
    AfterEmpty(lines, i);
    GluedHead(lines, i, line);
    ScanShifted(lines, Glued(lines, i, line), i, |Glued(lines, i, line)|);
  }

  lemma AfterEmpty(lines: seq<string>, i: nat)
    requires i + 1 < |lines| && ScanTo(lines, i) == Scan([], None)
    requires KeyMatch(lines[i]) && Opens(lines[i]).None?
    requires lines[i + 1] == "\r" || lines[i + 1] == "\r\n"
    ensures ScanTo(lines, i + 2) == Scan([i], None)
  {
    assert ScanTo(lines, i + 1) == Scan([i], None);
    EmptyLineIsNeutral(lines[i + 1], Scan([i], None), i + 1);
  }

  lemma GluedHead(lines: seq<string>, i: nat, line: string)
    requires i + 1 < |lines| && ScanTo(lines, i) == Scan([], None) && KeyMatch(line)
    ensures var glued := Glued(lines, i, line);
            && (forall k | i < k < |glued| :: glued[k] == lines[k + 1]) && |glued| == |lines| - 1
            && ScanTo(glued, i + 1) == if Opens(line).Some? then Multiline else Scan([i], None)
  {
    var glued := Glued(lines, i, line);
    assert glued[..i] == lines[..i];
    ScanPrefix(lines, glued, i);
  }

  lemma PayloadAt(text: string, i: nat, d: string)
    requires Located(text, i)
    ensures Payload(text, d) == Success(Written(text, i, d))
  {}

  lemma PayloadNeeds(text: string, i: nat, d: string)
    requires Scanned(Lines(text)).Scan? ==> i in Scanned(Lines(text)).positions
    ensures Payload(text, d).Success? ==> Located(text, i)
  {
    if Payload(text, d).Success? {
      SuccessIsLocated(text, d);
      var j :| Located(text, j);
      assert i == j;
    }
  }

  // ---- The laws --------------------------------------------------------------------------------------

  /** Replacing keeps all other lines, in order, exactly when it glues nothing; in particular text
      inside a multi-line value is never taken for the assignment. */
  lemma OtherLinesKept(original: string, i: nat, d: string)
    requires Located(original, i) && PlainDigest(d)
    ensures Payload(original, d) == Success(Written(original, i, d))
    ensures var lines := Lines(original);
            Lines(Written(original, i, d)) == lines[i := Assignment(d) + Ending(lines[i])] <==> !Fuses(original, i)
    ensures forall k | 0 <= k < |Lines(original)| && ScanTo(Lines(original), k).Scan?
                       && ScanTo(Lines(original), k).quote.Some? :: k != i
  {
    PayloadAt(original, i, d);
    LocatedLine(original, i);
    if Fuses(original, i) { FusedLines(original, i, d); } else { ReplacedLines(original, i, d); }
  }

  /** What was put is what a fresh scan gets, unless a non-empty next line was glued to it. */
  lemma PutGet(original: string, i: nat, d: string)
    requires Located(original, i) && PlainDigest(d)
    ensures Payload(original, d) == Success(Written(original, i, d))
    ensures Get(Written(original, i, d)) == Some(d) <==> !(Fuses(original, i) && Chomp(Lines(original)[i + 1]) != "")
  {
    PayloadAt(original, i, d);
    LinesAreShaped(original);
    LocatedLine(original, i);
    if !Fuses(original, i) {
      PlainGet(original, i, d);
    } else {
      FusedLines(original, i, d);
      GluedGet(Lines(original), i, d);
    }
  }

  lemma PlainGet(text: string, i: nat, d: string)
    requires Located(text, i) && PlainDigest(d) && !Fuses(text, i)
    ensures Get(Written(text, i, d)) == Some(d)
  {
    var lines := Lines(text);
    LinesAreShaped(text);
    var content, e := LineParts(lines[i]);
    EndingIs(content, e);
    AssignmentPlain(d);
    ReplacedLocated(text, i, d);
    ReplacedLines(text, i, d);
    GetLine(Lines(Written(text, i, d)), i, d, Ending(lines[i]));
  }

  lemma GluedGet(lines: seq<string>, i: nat, d: string)
    requires i + 1 < |lines| && Scanned(lines) == Scan([i], None) && ScanTo(lines, i) == Scan([], None)
    requires KeyMatch(lines[i]) && Opens(lines[i]).None? && LoneCr(lines[i]) && Shaped(lines) && PlainDigest(d)
    ensures GetFrom(Glued(lines, i, Assignment(d) + lines[i + 1])) == Some(d) <==> Chomp(lines[i + 1]) == ""
  {
    var content, e := GluedLine(d, lines[i + 1]);
    AssignmentAppend(d, lines[i + 1]);
    AssignmentMatches(d + lines[i + 1]);
    GluedScan(lines, i, Assignment(d) + lines[i + 1]);
    if content == "" {
      EmptyNext(lines, i, content, e);
      assert d + content == d;
      AssignmentLine(d, e);
      GetLine(Glued(lines, i, Assignment(d) + e), i, d, e);
    } else {
      GluedReads(lines, i, d, content, e);
    }
  }

  /** A non-empty line glued to the value shows in the value. */
  lemma GluedReads(lines: seq<string>, i: nat, d: string, content: string, e: string)
    requires i + 1 < |lines| && Plain(Assignment(d + content)) && IsEnding(e) && content != ""
    requires var glued := Glued(lines, i, Assignment(d + content) + e);
             Scanned(glued).Scan? ==> i in Scanned(glued).positions
    ensures GetFrom(Glued(lines, i, Assignment(d + content) + e)) != Some(d)
  {
    var glued := Glued(lines, i, Assignment(d + content) + e);
    if GetFrom(glued).Some? {
      var ps := Scanned(glued).positions;
      assert ps == [ps[0]] && ps[0] == i;
      GetLine(glued, i, d + content, e);
      assert |d + content| > |d|;
    }
  }

  lemma EmptyNext(lines: seq<string>, i: nat, content: string, e: string)
    requires Shaped(lines) && i + 1 < |lines| && LoneCr(lines[i])
    requires content == "" && lines[i + 1] == content + e && IsEnding(e)
    ensures lines[i + 1] == e && (e == "\r" || e == "\r\n")
  {
    assert content + e == e;
    assert Follows(lines[i + 1 - 1], lines[i + 1]);
    LoneCrBefore(lines[i], lines[i + 1]);
  }

  lemma LoneCrBefore(line: string, next: string)
    requires LoneCr(line) && Follows(line, next)
    ensures next[0] != '\n'
  {
    assert line[|line| - 1..] == [line[|line| - 1]];
  }

  /** Putting twice is putting the last value, unless a line other than a bare CRLF was glued. */
  lemma PutPut(original: string, i: nat, d1: string, d2: string)
    requires Located(original, i) && PlainDigest(d1) && PlainDigest(d2)
    ensures Payload(original, d1) == Success(Written(original, i, d1))
    ensures Payload(Written(original, i, d1), d2) == Payload(original, d2)
       <==> !(Fuses(original, i) && Lines(original)[i + 1] != "\r\n")
  {
    PayloadAt(original, i, d1);
    PayloadAt(original, i, d2);
    if !Fuses(original, i) {
      ReplacedLocated(original, i, d1);
      PayloadAt(Written(original, i, d1), i, d2);
      WrittenTwice(original, i, d1, d2);
    } else {
      FusedPut(original, i, d1, d2);
    }
  }

  lemma WrittenTwice(text: string, i: nat, d1: string, d2: string)
    requires i < |Lines(text)| && PlainDigest(d1) && PlainDigest(d2) && !Fuses(text, i)
    ensures i < |Lines(Written(text, i, d1))|
    ensures Written(Written(text, i, d1), i, d2) == Written(text, i, d2)
  {
    var lines := Lines(text);
    LinesAreShaped(text);
    var content, e := LineParts(lines[i]);
    EndingIs(content, e);
    ReplacedLines(text, i, d1);
    AssignmentPlain(d1);
    EndingIs(Assignment(d1), Ending(lines[i]));
    var line2 := Assignment(d2) + Ending(lines[i]);
    assert lines[i := Assignment(d1) + Ending(lines[i])][i := line2] == lines[i := line2];
  }

  lemma FusedPut(original: string, i: nat, d1: string, d2: string)
    requires Located(original, i) && PlainDigest(d1) && PlainDigest(d2) && Fuses(original, i)
    ensures Payload(Written(original, i, d1), d2) == Success(Written(original, i, d2)) <==> Lines(original)[i + 1] == "\r\n"
  {
    var lines := Lines(original);
    var out := Written(original, i, d1);
    LinesAreShaped(original);
    LocatedLine(original, i);
    FusedLines(original, i, d1);
    AssignmentAppend(d1, lines[i + 1]);
    AssignmentMatches(d1 + lines[i + 1]);
    GluedScan(lines, i, Assignment(d1) + lines[i + 1]);
    PayloadNeeds(out, i, d2);
    if Located(out, i) { PayloadAt(out, i, d2); }
    var lost, lostEnding := LineParts(lines[i]);
    EndingIs(lost, lostEnding);
    GluedPut(lines, i, d1, d2);
  }

  /** What the two ways of putting d2 over a glued line write differs in length, but for a bare CRLF. */
  lemma GluedPut(lines: seq<string>, i: nat, d1: string, d2: string)
    requires i + 1 < |lines| && Shaped(lines) && LoneCr(lines[i]) && PlainDigest(d1) && PlainDigest(d2)
    ensures var line1 := Assignment(d1) + lines[i + 1];
            var line2 := Assignment(d2) + Ending(line1);
            Join(Glued(lines, i, line1)[i := line2]) == Join(lines[i := Assignment(d2) + ""]) <==> lines[i + 1] == "\r\n"
    ensures lines[i + 1] == "\r\n" ==> Opens(Assignment(d1) + lines[i + 1]).None?
  {
    var next := lines[i + 1];
    var ending := Ending(Assignment(d1) + next);
    GluedEnding(lines, i, d1);
    GluedJoins(lines, i, Assignment(d1) + next, Assignment(d2), ending);
    if next == "\r\n" { AssignmentLine(d1, "\r\n"); }
  }

  lemma GluedEnding(lines: seq<string>, i: nat, d: string)
    requires i + 1 < |lines| && Shaped(lines) && LoneCr(lines[i]) && PlainDigest(d)
    ensures var ending := Ending(Assignment(d) + lines[i + 1]);
            && (|ending| == |lines[i + 1]| <==> lines[i + 1] == "\r\n")
            && (lines[i + 1] == "\r\n" ==> ending == "\r\n")
  {
    var next := lines[i + 1];
    var content, e := GluedLine(d, next);
    EndingIs(Assignment(d + content), e);
    assert Follows(lines[i + 1 - 1], lines[i + 1]);
    LoneCrBefore(lines[i], next);
    if next == "\r\n" { CrLfParts(content, e); }
  }

  lemma CrLfParts(content: string, e: string)
    requires Plain(content) && IsEnding(e) && content + e == "\r\n"
    ensures content == "" && e == "\r\n"
  {
    HeadStays(content, e);
  }

  lemma HeadStays(content: string, e: string)
    ensures content != "" ==> (content + e)[0] == content[0]
  {}

  lemma GluedJoins(lines: seq<string>, i: nat, line1: string, line: string, ending: string)
    requires i + 1 < |lines|
    ensures |Join(Glued(lines, i, line1)[i := line + ending])| - |Join(lines[i := line + ""])| == |ending| - |lines[i + 1]|
    ensures ending == lines[i + 1] ==> Join(Glued(lines, i, line1)[i := line + ending]) == Join(lines[i := line + ""])
  {
    assert Glued(lines, i, line1)[i := line + ending] == Glued(lines, i, line + ending);
    FusedJoin(lines, i, line);
    FusedLengths(lines, i, line + ending, line + lines[i + 1]);
  }

  lemma FusedLengths(lines: seq<string>, i: nat, a: string, b: string)
    requires i + 1 < |lines|
    ensures |Join(Glued(lines, i, a))| - |Join(Glued(lines, i, b))| == |a| - |b|
  {
    var rest := lines[i + 2..];
    assert lines[..i] + [a] + rest == lines[..i] + ([a] + rest) && lines[..i] + [b] + rest == lines[..i] + ([b] + rest);
    JoinAppend(lines[..i], [a] + rest);
    JoinAppend(lines[..i], [b] + rest);
    assert ([a] + rest)[1..] == rest && ([b] + rest)[1..] == rest;
  }

  /** Putting what is already there changes nothing, and nothing else does. */
  lemma PutOwn(original: string, i: nat, d: string)
    requires Located(original, i) && PlainDigest(d)
    ensures Payload(original, d) == Success(Written(original, i, d))
    ensures Written(original, i, d) == original <==> Lines(original)[i] == Assignment(d) + Ending(Lines(original)[i])
  {
    PayloadAt(original, i, d);
    WrittenOwn(original, i, d);
  }

  lemma WrittenOwn(text: string, i: nat, d: string)
    requires i < |Lines(text)| && PlainDigest(d)
    ensures Written(text, i, d) == text <==> Lines(text)[i] == Assignment(d) + Ending(Lines(text)[i])
  {
    var lines := Lines(text);
    var line := Assignment(d) + Ending(lines[i]);
    if lines[i] == line {
      LinesAreShaped(text);
      assert lines[i := line] == lines;
    } else if Fuses(text, i) {
      FusedLines(text, i, d);
      GluedShorter(lines, i, Assignment(d) + lines[i + 1]);
    } else {
      ReplacedLines(text, i, d);
      assert lines[i := line][i] == line;
    }
  }

  lemma GluedShorter(lines: seq<string>, i: nat, line: string)
    requires i + 1 < |lines|
    ensures |Glued(lines, i, line)| < |lines|
  {}

  /** A file of two lines, the first the assignment and ended by a lone CR. */
  function GluingFile(): string {
    Join([Assignment("old") + "\r", "OTHER\n"])
  }

  lemma GluingFileLines()
    ensures Lines(GluingFile()) == [Assignment("old") + "\r", "OTHER\n"]
    ensures Located(GluingFile(), 0) && Fuses(GluingFile(), 0)
    ensures Chomp(Lines(GluingFile())[1]) != "" && Lines(GluingFile())[1] != "\r\n"
  {
    GluingFileShaped();
    LinesOfJoin([Assignment("old") + "\r", "OTHER\n"]);
    OtherLine();
    TwoLineScan(Assignment("old") + "\r", "OTHER\n");
  }

  lemma GluingFileShaped()
    ensures Shaped([Assignment("old") + "\r", "OTHER\n"])
    ensures var line := Assignment("old") + "\r"; KeyMatch(line) && Opens(line).None? && LoneCr(line)
  {
    AssignmentLine("old", "\r");
    PlainThenEnding(Assignment("old"), "\r");
    PlainThenEnding("OTHER", "\n");
    assert "OTHER" + "\n" == "OTHER\n";
    EndingIs(Assignment("old"), "\r");
    assert Follows(Assignment("old") + "\r", "OTHER\n");
  }

  lemma TwoLineScan(line: string, other: string)
    requires KeyMatch(line) && Opens(line).None? && !KeyMatch(other) && Opens(other).None?
    ensures Scanned([line, other]) == Scan([0], None)
  {
    var lines := [line, other];
    assert ScanTo(lines, 0) == Scan([], None);
    assert ScanTo(lines, 1) == Scan([0], None);
    assert ScanTo(lines, 2) == Scan([0], None);
  }

  lemma OtherLine()
    ensures !KeyMatch("OTHER\n") && Opens("OTHER\n").None? && Chomp("OTHER\n") != "" && "OTHER\n" != "\r\n"
  {
    EndingIs("OTHER", "\n");
    assert "OTHER" + "\n" == "OTHER\n";
    var line := "OTHER\n";
    assert SkipBlanks(line) == line && AfterName(line).None?;
    NoSign(line);
  }

  lemma {:induction false} NoSign(line: string)
    requires '=' !in line
    ensures AfterSign(line) == ""
  {
    if line != "" { NoSign(line[1..]); }
  }

  /** On that file every law fails, whatever is written: the next line is lost, a fresh scan does
      not find the digest, and a second write does not amount to the last one. */
  lemma GluingBreaksTheLaws(d1: string, d2: string)
    requires PlainDigest(d1) && PlainDigest(d2)
    ensures var file := GluingFile();
            && Located(file, 0) && Payload(file, d1) == Success(Written(file, 0, d1))
            && Lines(Written(file, 0, d1)) != Lines(file)[0 := Assignment(d1) + Ending(Lines(file)[0])]
            && Get(Written(file, 0, d1)) != Some(d1)
            && Payload(Written(file, 0, d1), d2) != Payload(file, d2)
  {
    GluingFileLines();
    FusionBreaksTheLaws(GluingFile(), d1, d2);
  }

  lemma FusionBreaksTheLaws(file: string, d1: string, d2: string)
    requires Located(file, 0) && Fuses(file, 0) && PlainDigest(d1) && PlainDigest(d2)
    requires Chomp(Lines(file)[1]) != "" && Lines(file)[1] != "\r\n"
    ensures Payload(file, d1) == Success(Written(file, 0, d1))
    ensures Lines(Written(file, 0, d1)) != Lines(file)[0 := Assignment(d1) + Ending(Lines(file)[0])]
    ensures Get(Written(file, 0, d1)) != Some(d1)
    ensures Payload(Written(file, 0, d1), d2) != Payload(file, d2)
  {
    OtherLinesKept(file, 0, d1);
    PutGet(file, 0, d1);
    PutPut(file, 0, d1, d2);
  }

  // ---- The append branch -------------------------------------------------------------------------------

  /** A trailing newline is invisible to the scanner. */
  lemma {:induction false} ClosesThroughNewline(value: string, quote: char, escaped: bool)
    requires Quote(quote)
    ensures Closes(value + "\n", quote, escaped) == Closes(value, quote, escaped)
  {
    var t := value + "\n";
    if value == "" {
      assert t == "\n" && t[1..] == "";
    } else {
      assert t[1..] == value[1..] + "\n";
      if escaped {
        ClosesThroughNewline(value[1..], quote, false);
      } else if value[0] == '\\' {
        ClosesThroughNewline(value[1..], quote, true);
      } else {
        ClosesThroughNewline(value[1..], quote, false);
      }
    }
  }

  lemma KeyThroughNewline(line: string)
    ensures KeyMatch(line + "\n") == KeyMatch(line)
  {
    KeyMatchIsPattern(line);
    KeyMatchIsPattern(line + "\n");
    if KeyPattern(line) { PatternExtends(line, "\n"); }
    if KeyPattern(line + "\n") { PatternShrinks(line); }
  }

  lemma PatternExtends(line: string, more: string)
    requires KeyPattern(line)
    ensures KeyPattern(line + more)
  {
    var head: string, rest: string :| KeyHead(head) && line == head + ("=" + rest);
    assert line + more == head + ("=" + (rest + more));
  }

  lemma PatternShrinks(line: string)
    requires KeyPattern(line + "\n")
    ensures KeyPattern(line)
  {
    var head: string, rest: string :| KeyHead(head) && line + "\n" == head + ("=" + rest);
    var shorter := CutRest(line, head, rest);
  }

  lemma CutRest(line: string, head: string, rest: string) returns (shorter: string)
    requires line + "\n" == head + ("=" + rest)
    ensures line == head + ("=" + shorter)
  {
    var t := line + "\n";
    assert t[|t| - 1] == '\n' && t[|head|] == '=';
    assert rest != "";
    shorter := rest[..|rest| - 1];
    assert line == t[..|t| - 1];
  }

  lemma {:induction false} SkipsThroughNewline(s: string)
    ensures SkipBlanks(s + "\n") == SkipBlanks(s) + "\n"
    ensures AfterSign(s + "\n") == (if '=' in s then AfterSign(s) + "\n" else "")
    ensures '=' !in s ==> AfterSign(s) == ""
    ensures SkipSpaces(s) == "" ==> SkipSpaces(s + "\n") == ""
    ensures SkipSpaces(s) != "" ==> SkipSpaces(s + "\n") == SkipSpaces(s) + "\n"
  {
    if s == "" {
      assert s + "\n" == "\n" && "\n"[1..] == "";
    } else {
      assert (s + "\n")[1..] == s[1..] + "\n";
      SkipsThroughNewline(s[1..]);
    }
  }

  lemma OpensThroughNewline(line: string)
    ensures Opens(line + "\n") == Opens(line)
  {
    SkipsThroughNewline(line);
    SkipsThroughNewline(AfterSign(line));
    var value := SkipBlanks(AfterSign(line));
    if value != "" && Quote(value[0]) {
      assert (value + "\n")[1..] == value[1..] + "\n";
      ClosesThroughNewline(value[1..], value[0], false);
    }
  }

  lemma StepThroughNewline(scan: Scan, line: string, index: nat)
    requires scan.Scan? && scan.quote.Some? ==> Quote(scan.quote.value)
    ensures Step(scan, line + "\n", index) == Step(scan, line, index)
  {
    KeyThroughNewline(line);
    OpensThroughNewline(line);
    if scan.Scan? && scan.quote.Some? { ClosesThroughNewline(line, scan.quote.value, false); }
  }

  lemma {:induction false} QuotesOnly(lines: seq<string>, n: nat)
    requires n <= |lines|
    ensures ScanTo(lines, n).Scan? && ScanTo(lines, n).quote.Some? ==> Quote(ScanTo(lines, n).quote.value)
  {
    if n > 0 { QuotesOnly(lines, n - 1); }
  }

  /** The lines of a file once its last line is completed. */
  function Completed(original: string): seq<string> {
    var lines := Lines(original);
    if Separator(original) == "" || lines == [] then lines else lines[|lines| - 1 := lines[|lines| - 1] + "\n"]
  }

  lemma {:induction false} LastChar(lines: seq<string>)
    requires lines != [] && forall k | 0 <= k < |lines| :: lines[k] != ""
    ensures Join(lines) != "" && Join(lines)[|Join(lines)| - 1] == lines[|lines| - 1][|lines[|lines| - 1]| - 1]
  {
    if |lines| > 1 { LastChar(lines[1..]); } else { assert lines[1..] == []; }
  }

  lemma EndsWithNewline(s: string)
    requires s != ""
    ensures EndsLf(s) <==> s[|s| - 1] == '\n'
  {
    assert s[|s| - 1..] == [s[|s| - 1]];
  }

  lemma CompletedShaped(original: string)
    ensures Shaped(Completed(original)) && Join(Completed(original)) == original + Separator(original)
    ensures var done := Completed(original);
            done != [] ==> done[|done| - 1] != "" && done[|done| - 1][|done[|done| - 1]| - 1] == '\n'
    ensures |Completed(original)| == |Lines(original)|
  {
    var lines := Lines(original);
    LinesAreShaped(original);
    if lines != [] {
      LastChar(lines);
      EndsWithNewline(original);
      if Separator(original) == "" { assert original + "" == original; } else { LastLineCompleted(lines); }
    } else {
      assert original + "" == original;
    }
  }

  lemma LastLineCompleted(lines: seq<string>)
    requires Shaped(lines) && lines != [] && lines[|lines| - 1][|lines[|lines| - 1]| - 1] != '\n'
    ensures var done := lines[|lines| - 1 := lines[|lines| - 1] + "\n"];
            Shaped(done) && Join(done) == Join(lines) + "\n"
  {
    var m := |lines| - 1;
    CompletedLine(lines[m]);
    if m > 0 { assert Follows(lines[m - 1], lines[m]) && (lines[m] + "\n")[0] == lines[m][0]; }
    ShapedLast(lines, lines[m] + "\n");
    assert lines[..m] + [lines[m]] == lines && lines[..m] + [lines[m] + "\n"] == lines[m := lines[m] + "\n"];
    JoinAppend(lines[..m], [lines[m]]);
    JoinAppend(lines[..m], [lines[m] + "\n"]);
    JoinOne(lines[m]);
    JoinOne(lines[m] + "\n");
    assert Join(lines[..m]) + (lines[m] + "\n") == (Join(lines[..m]) + lines[m]) + "\n";
  }

  lemma JoinOne(line: string)
    ensures Join([line]) == line
  {
    assert [line][1..] == [];
    assert line + "" == line;
  }

  lemma CompletedLine(line: string)
    requires IsLine(line) && line[|line| - 1] != '\n'
    ensures IsLine(line + "\n")
  {
    var content, e := LineParts(line);
    assert e == "" || e == "\r" by { if e != "" { assert line[|line| - 1] == e[|e| - 1]; } }
    assert line + "\n" == content + (e + "\n");
    assert e == "" ==> e + "\n" == "\n";
    PlainThenEnding(content, e + "\n");
  }

  lemma ShapedLast(lines: seq<string>, line: string)
    requires Shaped(lines) && lines != [] && IsLine(line)
    requires |lines| > 1 ==> Follows(lines[|lines| - 2], line)
    ensures Shaped(lines[|lines| - 1 := line])
  {
    var lines' := lines[|lines| - 1 := line];
    forall k | 0 < k < |lines'| ensures Follows(lines'[k - 1], lines'[k]) { assert Follows(lines[k - 1], lines[k]); }
  }

  lemma CompletedScan(original: string)
    ensures Scanned(Completed(original)) == Scanned(Lines(original))
  {
    var lines, done := Lines(original), Completed(original);
    if lines != [] && done != lines {
      var m := |lines| - 1;
      assert done[..m] == lines[..m];
      ScanPrefix(lines, done, m);
      QuotesOnly(lines, m);
      StepThroughNewline(ScanTo(lines, m), lines[m], m);
    }
  }

  function Longer(original: string, d: string): string {
    original + Separator(original) + Assignment(d) + "\n"
  }

  lemma AppendedLines(original: string, d: string)
    requires PlainDigest(d)
    ensures Lines(Longer(original, d)) == Completed(original) + [Assignment(d) + "\n"]
  {
    var done, line := Completed(original), Assignment(d) + "\n";
    CompletedShaped(original);
    AssignmentPlain(d);
    PlainThenEnding(Assignment(d), "\n");
    assert line[0] == 'S';
    ShapedSnoc(done, line);
    JoinAppend(done, [line]);
    JoinOne(line);
    assert Longer(original, d) == Join(done) + line;
    LinesOfJoin(done + [line]);
  }

  lemma AppendedScan(done: seq<string>, line: string)
    requires Scanned(done) == Scan([], None) && KeyMatch(line) && Opens(line).None?
    ensures Scanned(done + [line]) == Scan([|done|], None)
  {
    assert (done + [line])[..|done|] == done[..|done|];
    ScanPrefix(done, done + [line], |done|);
  }

  /** With no assignment yet, every line is kept, the last one completed, and the assignment
      follows as a line of its own. */
  lemma Appended(original: string, d: string)
    requires Unlocated(original) && PlainDigest(d)
    ensures Payload(original, d) == Success(Longer(original, d))
    ensures Lines(Longer(original, d)) == Completed(original) + [Assignment(d) + "\n"]
    ensures Located(Longer(original, d), |Lines(original)|)
  {
    AppendedLines(original, d);
    CompletedScan(original);
    CompletedShaped(original);
    AssignmentLine(d, "\n");
    AppendedScan(Completed(original), Assignment(d) + "\n");
  }

  lemma ShapedSnoc(lines: seq<string>, line: string)
    requires Shaped(lines) && IsLine(line) && line[0] != '\n'
    requires lines != [] ==> lines[|lines| - 1] != "" && lines[|lines| - 1][|lines[|lines| - 1]| - 1] == '\n'
    ensures Shaped(lines + [line])
  {
    var more := lines + [line];
    forall k | 0 < k < |more| ensures Follows(more[k - 1], more[k]) {
      if k < |lines| { assert Follows(lines[k - 1], lines[k]); }
    }
  }

  /** The laws hold without exception when the assignment was appended. */
  lemma AppendLaws(original: string, d1: string, d2: string)
    requires Unlocated(original) && PlainDigest(d1) && PlainDigest(d2)
    ensures Payload(original, d1) == Success(Longer(original, d1))
    ensures Get(Longer(original, d1)) == Some(d1)
    ensures Payload(Longer(original, d1), d2) == Payload(original, d2)
  {
    Appended(original, d1);
    Appended(original, d2);
    AssignmentPlain(d1);
    CompletedShaped(original);
    GetLine(Lines(Longer(original, d1)), |Lines(original)|, d1, "\n");
    PayloadAt(Longer(original, d1), |Lines(original)|, d2);
    AppendedTwice(original, d1, d2);
  }

  lemma AppendedTwice(original: string, d1: string, d2: string)
    requires PlainDigest(d1) && PlainDigest(d2)
    ensures |Lines(original)| < |Lines(Longer(original, d1))|
    ensures Written(Longer(original, d1), |Lines(original)|, d2) == Longer(original, d2)
  {
    var done := Completed(original);
    AppendedLines(original, d1);
    AppendedLines(original, d2);
    CompletedShaped(original);
    AssignmentPlain(d1);
    EndingIs(Assignment(d1), "\n");
    LinesAreShaped(Longer(original, d2));
    assert (done + [Assignment(d1) + "\n"])[|done| := Assignment(d2) + "\n"] == done + [Assignment(d2) + "\n"];
  }

  /** Every CR is followed by LF. */
  predicate NoLoneCr(text: string) {
    forall k | 0 <= k < |text| && text[k] == '\r' :: k + 1 < |text| && text[k + 1] == '\n'
  }

  lemma NothingFuses(text: string, i: nat)
    requires NoLoneCr(text)
    ensures !Fuses(text, i)
  {
    if Fuses(text, i) { FusingShowsLoneCr(text, i); }
  }

  lemma FusingShowsLoneCr(text: string, i: nat)
    requires Fuses(text, i)
    ensures !NoLoneCr(text)
  {
    var lines := Lines(text);
    LinesAreShaped(text);
    assert Follows(lines[i + 1 - 1], lines[i + 1]);
    LoneCrBefore(lines[i], lines[i + 1]);
    var a, b := lines[..i + 1], lines[i + 1..];
    assert a + b == lines;
    JoinAppend(a, b);
    LastChar(a);
    EndsWithCr(lines[i]);
    assert text == Join(a) + Join(b) && Join(b)[0] == lines[i + 1][0];
    assert text[|Join(a)| - 1] == '\r' && text[|Join(a)|] != '\n';
  }

  lemma EndsWithCr(s: string)
    requires LoneCr(s)
    ensures s != "" && s[|s| - 1] == '\r'
  {
    assert s[|s| - 1..] == [s[|s| - 1]];
  }

  /** Files whose every CR is part of a CRLF obey all the laws. */
  lemma LawsWithoutLoneCr(original: string, d1: string, d2: string)
    requires NoLoneCr(original) && PlainDigest(d1) && PlainDigest(d2) && Payload(original, d1).Success?
    ensures Get(Payload(original, d1).value) == Some(d1)
    ensures Payload(Payload(original, d1).value, d2) == Payload(original, d2)
    ensures var lines, after := Lines(original), Lines(Payload(original, d1).value);
            if Unlocated(original) then after == Completed(original) + [Assignment(d1) + "\n"]
            else exists i: nat :: Located(original, i) && after == lines[i := Assignment(d1) + Ending(lines[i])]
  {
    SuccessIsLocated(original, d1);
    if Unlocated(original) {
      AppendLaws(original, d1, d2);
      Appended(original, d1);
    } else {
      var i :| Located(original, i);
      NothingFuses(original, i);
      PutGet(original, i, d1);
      PutPut(original, i, d1, d2);
      OtherLinesKept(original, i, d1);
    }
  }
}
