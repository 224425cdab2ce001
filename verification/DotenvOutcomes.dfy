/** What the dotenv scanner recognises, position by position, and when the rewriter refuses a file. */
module DotenvOutcomes {
  import opened Common
  import opened Dotenv

  // ---- Quotes ----------------------------------------------------------------------------------

  /** How many backslashes stand right before position i. */
  function Backslashes(s: string, i: nat): (n: nat)
    requires i <= |s|
    ensures n <= i
  {
    if i > 0 && s[i - 1] == '\\' then Backslashes(s, i - 1) + 1 else 0
  }

  /** An occurrence of the quote that is not escaped; a pending backslash escapes the first character. */
  predicate Unescaped(s: string, quote: char, pending: bool, i: nat) {
    && i < |s| && s[i] == quote
    && (Backslashes(s, i) + if pending && Backslashes(s, i) == i then 1 else 0) % 2 == 0
  }

  lemma {:induction false} BackslashesShift(s: string, i: nat)
    requires 0 < i <= |s|
    ensures var n := Backslashes(s[1..], i - 1);
            Backslashes(s, i) == if n == i - 1 && s[0] == '\\' then i else n
    decreases i
  {
    if i > 1 {
      BackslashesShift(s, i - 1);
      assert s[1..][i - 2] == s[i - 1];
    }
  }

  lemma UnescapedShift(s: string, quote: char, pending: bool, i: nat)
    requires 0 < i < |s|
    ensures var carried := !pending && s[0] == '\\';
            Unescaped(s, quote, pending, i) <==> Unescaped(s[1..], quote, carried, i - 1)
  {
    BackslashesShift(s, i);
  }

  /** A value closes its quote exactly if the quote occurs in it after an even number of backslashes. */
  lemma {:induction false} ClosesExactly(s: string, quote: char, pending: bool)
    requires quote != '\\'
    ensures Closes(s, quote, pending) <==> exists i: nat :: Unescaped(s, quote, pending, i)
    decreases |s|
  {
    if s != "" {
      var carried := !pending && s[0] == '\\';
      ClosesExactly(s[1..], quote, carried);
      assert Unescaped(s, quote, pending, 0) <==> s[0] == quote && !pending;
      if i: nat :| Unescaped(s, quote, pending, i) && i > 0 { UnescapedShift(s, quote, pending, i); }
      if i: nat :| Unescaped(s[1..], quote, carried, i) { UnescapedShift(s, quote, pending, i + 1); }
    }
  }

  // ---- Values ----------------------------------------------------------------------------------

  /** The first sign of the line, and where the value after it starts. */
  predicate ValueAt(line: string, sign: nat, start: nat) {
    && sign < start <= |line| && line[sign] == '=' && (forall i | 0 <= i < sign :: line[i] != '=')
    && (forall i | sign < i < start :: Blank(line[i])) && (start < |line| ==> !Blank(line[start]))
  }

  /** The first character that is no white space is a hash. */
  predicate Comment(line: string) {
    exists i :: 0 <= i < |line| && line[i] == '#' && forall j | 0 <= j < i :: Space(line[j])
  }

  lemma {:induction false} SkippedSpaces(line: string)
    ensures SkipSpaces(line) != "" && SkipSpaces(line)[0] == '#' <==> Comment(line)
    decreases |line|
  {
    if line != "" && Space(line[0]) {
      SkippedSpaces(line[1..]);
      if Comment(line) {
        var i :| 0 <= i < |line| && line[i] == '#' && forall j | 0 <= j < i :: Space(line[j]);
        assert i > 0 && line[1..][i - 1] == '#' && forall j | 0 <= j < i - 1 :: line[1..][j] == line[j + 1];
      }
      if Comment(line[1..]) {
        var i :| 0 <= i < |line| - 1 && line[1..][i] == '#' && forall j | 0 <= j < i :: Space(line[1..][j]);
        assert line[i + 1] == '#';
        forall j | 0 <= j < i + 1 ensures Space(line[j]) { if j > 0 { assert line[j] == line[1..][j - 1]; } }
      }
    } else if line != "" && line[0] == '#' {
      assert Comment(line);
    }
  }

  lemma {:induction false} SkippedBlanks(s: string) returns (n: nat)
    ensures n <= |s| && SkipBlanks(s) == s[n..] && (forall i | 0 <= i < n :: Blank(s[i])) && (n < |s| ==> !Blank(s[n]))
    decreases |s|
  {
    if s != "" && Blank(s[0]) {
      n := SkippedBlanks(s[1..]);
      n := n + 1;
    } else {
      n := 0;
    }
  }

  lemma {:induction false} SignFound(line: string) returns (sign: nat)
    requires '=' in line
    ensures sign < |line| && line[sign] == '=' && (forall i | 0 <= i < sign :: line[i] != '=') && AfterSign(line) == line[sign + 1..]
    decreases |line|
  {
    if line[0] == '=' {
      sign := 0;
    } else {
      sign := SignFound(line[1..]);
      sign := sign + 1;
    }
  }

  /** The value starts with the quote and does not close it. */
  ghost predicate LeftOpen(line: string, sign: nat, start: nat, quote: char) {
    && ValueAt(line, sign, start) && start < |line| && line[start] == quote
    && NeverCloses(line[start + 1..], quote)
  }

  ghost predicate NeverCloses(value: string, quote: char) {
    forall i: nat :: !Unescaped(value, quote, false, i)
  }

  /** A line leaves a quote open exactly if it is no comment and its value, after the first sign and
      blanks, starts with that quote and does not close it. */
  lemma OpensExactly(line: string, quote: char)
    ensures Opens(line) == Some(quote) <==>
              && !Comment(line) && Quote(quote)
              && exists sign: nat, start: nat :: LeftOpen(line, sign, start, quote)
  {
    SkippedSpaces(line);
    if '=' in line {
      var sign := SignFound(line);
      var n := SkippedBlanks(line[sign + 1..]);
      var start := sign + 1 + n;
      assert AfterSign(line)[n..] == line[start..];
      forall i | sign < i < start ensures Blank(line[i]) { assert line[i] == line[sign + 1..][i - sign - 1]; }
      assert start < |line| ==> line[start] == line[sign + 1..][n];
      assert ValueAt(line, sign, start);
      forall a: nat, b: nat | ValueAt(line, a, b) ensures a == sign && b == start {
        OneValue(line, a, b, sign, start);
      }
      if start < |line| && Quote(line[start]) { ClosesExactly(line[start + 1..], line[start], false); }
      assert start < |line| ==> line[start..][1..] == line[start + 1..];
      assert Opens(line) == Some(quote) ==> LeftOpen(line, sign, start, quote);
      if a: nat, b: nat :| LeftOpen(line, a, b, quote) { assert a == sign && b == start; }
    } else {
      NothingAfter(line);
    }
  }

  lemma OneValue(line: string, a: nat, b: nat, sign: nat, start: nat)
    requires ValueAt(line, a, b) && ValueAt(line, sign, start)
    ensures a == sign && b == start
  {
    assert a == sign;
  }

  lemma {:induction false} NothingAfter(line: string)
    requires '=' !in line
    ensures AfterSign(line) == ""
    decreases |line|
  {
    if line != "" { NothingAfter(line[1..]); }
  }

  // ---- Lines -----------------------------------------------------------------------------------

  /** No quote is open before line k. */
  predicate Free(lines: seq<string>, k: nat) {
    k <= |lines| && ScanTo(lines, k).Scan? && ScanTo(lines, k).quote.None?
  }

  /** Line j opened the quote, and no line after it up to n closed it. */
  ghost predicate OpenSince(lines: seq<string>, j: nat, n: nat, quote: char) {
    && j < n <= |lines| && Free(lines, j) && Opens(lines[j]) == Some(quote)
    && forall m | j < m < n :: !Closes(lines[m], quote, false)
  }

  /** A free line that assigns the name and leaves its own quote open. */
  ghost predicate Spills(lines: seq<string>, k: nat) {
    k < |lines| && Free(lines, k) && KeyMatch(lines[k]) && Opens(lines[k]).Some?
  }

  /** A free line that assigns the name. */
  predicate Assigns(lines: seq<string>, k: nat) {
    k < |lines| && Free(lines, k) && KeyMatch(lines[k])
  }

  ghost predicate SpilledBefore(lines: seq<string>, n: nat) {
    exists k: nat :: k < n && Spills(lines, k)
  }

  predicate QuoteIs(lines: seq<string>, n: nat, quote: char) {
    n <= |lines| && ScanTo(lines, n).Scan? && ScanTo(lines, n).quote == Some(quote)
  }

  ghost predicate Opened(lines: seq<string>, n: nat, quote: char) {
    exists j: nat :: OpenSince(lines, j, n, quote)
  }

  /** The lines found are the free assignments, in order. */
  ghost predicate Found(lines: seq<string>, n: nat, positions: seq<nat>) {
    && (forall p: nat :: p in positions <==> p < n && Assigns(lines, p))
    && (forall i, j | 0 <= i < j < |positions| :: positions[i] < positions[j])
  }

  /** The scan stops exactly at a free assignment that spills; otherwise a quote is open exactly since some
      free line that opened it, and the assignments found are exactly the free ones. */
  lemma {:induction false} ScanExactly(lines: seq<string>, n: nat)
    requires n <= |lines|
    ensures ScanTo(lines, n).Multiline? <==> SpilledBefore(lines, n)
    ensures ScanTo(lines, n).Scan? ==> forall q :: QuoteIs(lines, n, q) <==> Opened(lines, n, q)
    ensures ScanTo(lines, n).Scan? ==> Found(lines, n, ScanTo(lines, n).positions)
  {
    if n > 0 {
      ScanExactly(lines, n - 1);
      SpillNext(lines, n - 1);
      if ScanTo(lines, n - 1).Scan? && ScanTo(lines, n).Scan? {
        forall q ensures QuoteIs(lines, n, q) <==> Opened(lines, n, q) {
          assert QuoteIs(lines, n - 1, q) <==> Opened(lines, n - 1, q);
          QuoteNext(lines, n - 1, q);
        }
        FoundNext(lines, n - 1);
      }
    }
  }

  lemma SpillNext(lines: seq<string>, n: nat)
    requires n < |lines|
    ensures SpilledBefore(lines, n + 1) <==> SpilledBefore(lines, n) || Spills(lines, n)
    ensures ScanTo(lines, n + 1).Multiline? <==> ScanTo(lines, n).Multiline? || Spills(lines, n)
  {}

  lemma QuoteNext(lines: seq<string>, n: nat, q: char)
    requires n < |lines| && ScanTo(lines, n).Scan? && ScanTo(lines, n + 1).Scan?
    requires QuoteIs(lines, n, q) <==> Opened(lines, n, q)
    ensures QuoteIs(lines, n + 1, q) <==> Opened(lines, n + 1, q)
  {
    if QuoteIs(lines, n + 1, q) {
      if QuoteIs(lines, n, q) {
        var j: nat :| OpenSince(lines, j, n, q);
        assert OpenSince(lines, j, n + 1, q);
      } else {
        assert OpenSince(lines, n, n + 1, q);
      }
    }
    if Opened(lines, n + 1, q) {
      var j: nat :| OpenSince(lines, j, n + 1, q);
      if j < n { assert OpenSince(lines, j, n, q) && Opened(lines, n, q); }
    }
  }

  lemma FoundNext(lines: seq<string>, n: nat)
    requires n < |lines| && ScanTo(lines, n).Scan? && ScanTo(lines, n + 1).Scan? && Found(lines, n, ScanTo(lines, n).positions)
    ensures Found(lines, n + 1, ScanTo(lines, n + 1).positions)
  {
    var (before, after) := (ScanTo(lines, n).positions, ScanTo(lines, n + 1).positions);
    if Assigns(lines, n) {
      assert after == before + [n];
      OneMoreFound(lines, n, before);
    } else {
      assert after == before;
    }
  }

  lemma OneMoreFound(lines: seq<string>, n: nat, before: seq<nat>)
    requires Found(lines, n, before) && Assigns(lines, n)
    ensures Found(lines, n + 1, before + [n])
  {
    forall i | 0 <= i < |before| ensures before[i] < n { assert before[i] in before; }
    assert forall p: nat :: p in before + [n] <==> p in before || p == n;
  }

  ghost predicate AssignedTwice(lines: seq<string>) {
    exists a: nat, b: nat :: a < b && Assigns(lines, a) && Assigns(lines, b)
  }

  /** When a file is refused, and for what: an assignment outside quotes that spills; or else a quote left
      open at the end; or else two assignments outside quotes. Nothing else is refused, and what is
      located is exactly the assignment outside quotes. */
  lemma RefusedExactly(original: string, digest: string)
    ensures var (lines, payload) := (Lines(original), Payload(original, digest));
            if SpilledBefore(lines, |lines|) then payload == Failure(MultilineAssignment)
            else if exists q :: Opened(lines, |lines|, q) then payload == Failure(UnterminatedQuote)
            else if AssignedTwice(lines) then payload == Failure(DuplicateAssignment)
            else payload.Success? && (forall i: nat :: Located(original, i) <==> Assigns(lines, i))
  {
    var lines := Lines(original);
    ScanExactly(lines, |lines|);
    var scan := Scanned(lines);
    if scan.Scan? {
      if scan.quote.Some? {
        assert QuoteIs(lines, |lines|, scan.quote.value);
      } else {
        assert forall q :: !QuoteIs(lines, |lines|, q);
        TwoPositions(lines, scan.positions);
        forall i: nat ensures Located(original, i) <==> scan.positions == [i] { LocatedIs(original, i); }
        if !AssignedTwice(lines) {
          forall i: nat ensures Assigns(lines, i) <==> scan.positions == [i] { OnePosition(lines, scan.positions, i); }
        }
      }
    }
  }

  lemma LocatedIs(original: string, i: nat)
    requires Scanned(Lines(original)).Scan? && Scanned(Lines(original)).quote.None?
    requires Found(Lines(original), |Lines(original)|, Scanned(Lines(original)).positions)
    ensures Located(original, i) <==> Scanned(Lines(original)).positions == [i]
  {
    var positions := Scanned(Lines(original)).positions;
    if positions == [i] { assert i in positions; }
  }

  lemma OnePosition(lines: seq<string>, positions: seq<nat>, i: nat)
    requires Found(lines, |lines|, positions) && |positions| <= 1
    ensures Assigns(lines, i) <==> positions == [i]
  {
    if Assigns(lines, i) { assert i in positions; }
    if positions == [i] { assert i in positions; }
  }

  lemma TwoPositions(lines: seq<string>, positions: seq<nat>)
    requires Found(lines, |lines|, positions)
    ensures |positions| > 1 <==> AssignedTwice(lines)
  {
    if |positions| > 1 { assert positions[0] in positions && positions[1] in positions; }
    if AssignedTwice(lines) {
      var a: nat, b: nat :| a < b && Assigns(lines, a) && Assigns(lines, b);
      assert a in positions && b in positions;
    }
  }
}
