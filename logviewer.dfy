/**
 * The log viewer: the level/search line filter, the per-severity counts,
 * the severity of a displayed line, and the "last 100, newest first"
 * display. Strings are modelled as ASCII text.
 */
module LogViewer {
  import opened Seqs

  // ---------------------------------------------------------------------
  // Python's string operations used by the viewer
  // ---------------------------------------------------------------------

  predicate IsPrefix(p: string, s: string)
  {
    |p| <= |s| && s[..|p|] == p
  }

  /** needle occurs in hay starting at index i. */
  ghost predicate OccursAt(hay: string, needle: string, i: int)
  {
    0 <= i && i + |needle| <= |hay| && hay[i..i + |needle|] == needle
  }

  /** Python's `needle in hay`: needle occurs somewhere in hay. */
  function Contains(hay: string, needle: string): (r: bool)
    ensures r <==> exists i :: OccursAt(hay, needle, i)
    decreases |hay|
  {
    if IsPrefix(needle, hay) then
      assert OccursAt(hay, needle, 0);
      true
    else if |hay| == 0 then
      false
    else
      var r := Contains(hay[1..], needle);
      assert forall j :: OccursAt(hay[1..], needle, j) ==> OccursAt(hay, needle, j + 1);
      assert forall j :: OccursAt(hay, needle, j) ==> OccursAt(hay[1..], needle, j - 1);
      r
  }

  /** str.lower() on ASCII letters. */
  function LowerChar(c: char): char
  {
    if 'A' <= c <= 'Z' then (c as int - 'A' as int + 'a' as int) as char else c
  }

  function Lower(s: string): string
  {
    seq(|s|, i requires 0 <= i < |s| => LowerChar(s[i]))
  }

  /** The characters str.strip() removes (ASCII whitespace and separators 0x1C-0x1F). */
  predicate IsSpace(c: char)
  {
    (9 <= c as int <= 13) || (28 <= c as int <= 32)
  }

  /** Drops the leading whitespace. */
  function TrimStart(s: string): string
  {
    if |s| > 0 && IsSpace(s[0]) then TrimStart(s[1..]) else s
  }

  /** Drops the trailing whitespace. */
  function TrimEnd(s: string): string
  {
    if |s| > 0 && IsSpace(s[|s| - 1]) then TrimEnd(s[..|s| - 1]) else s
  }

  /** str.strip() */
  function Strip(s: string): string
  {
    TrimEnd(TrimStart(s))
  }

  /** TrimStart leaves a suffix of s that does not start with whitespace; everything cut off is whitespace. */
  lemma {:induction false} TrimStartSuffix(s: string)
    ensures |TrimStart(s)| <= |s|
    ensures forall j :: 0 <= j < |TrimStart(s)| ==> TrimStart(s)[j] == s[|s| - |TrimStart(s)| + j]
    ensures forall i :: 0 <= i < |s| - |TrimStart(s)| ==> IsSpace(s[i])
    ensures |TrimStart(s)| > 0 ==> !IsSpace(TrimStart(s)[0])
    decreases |s|
  {
    if |s| > 0 && IsSpace(s[0]) {
      var rest := s[1..];
      TrimStartSuffix(rest);
      var t := TrimStart(rest);
      assert TrimStart(s) == t;
      forall j | 0 <= j < |t|
        ensures t[j] == s[|s| - |t| + j]
      {
        assert t[j] == rest[|rest| - |t| + j];
      }
      forall i | 0 <= i < |s| - |t|
        ensures IsSpace(s[i])
      {
        if i > 0 {
          assert s[i] == rest[i - 1];
        }
      }
    }
  }

  /** TrimEnd leaves a prefix of s that does not end with whitespace; everything cut off is whitespace. */
  lemma {:induction false} TrimEndPrefix(s: string)
    ensures |TrimEnd(s)| <= |s|
    ensures forall j :: 0 <= j < |TrimEnd(s)| ==> TrimEnd(s)[j] == s[j]
    ensures forall i :: |TrimEnd(s)| <= i < |s| ==> IsSpace(s[i])
    ensures |TrimEnd(s)| > 0 ==> !IsSpace(TrimEnd(s)[|TrimEnd(s)| - 1])
    decreases |s|
  {
    if |s| > 0 && IsSpace(s[|s| - 1]) {
      var rest := s[..|s| - 1];
      TrimEndPrefix(rest);
      var t := TrimEnd(rest);
      assert TrimEnd(s) == t;
      forall j | 0 <= j < |t|
        ensures t[j] == s[j]
      {
        assert t[j] == rest[j];
      }
      forall i | |t| <= i < |s|
        ensures IsSpace(s[i])
      {
        if i < |s| - 1 {
          assert s[i] == rest[i];
        }
      }
    }
  }

  /** r is s[k..k+|r|], and everything of s before and after that slice is whitespace. */
  ghost predicate StrippedAt(s: string, r: string, k: int)
  {
    && OccursAt(s, r, k)
    && (forall i :: 0 <= i < k ==> IsSpace(s[i]))
    && (forall i :: k + |r| <= i < |s| ==> IsSpace(s[i]))
  }

  /**
   * strip() leaves the part of s between a run of leading and a run of
   * trailing whitespace, and that part neither starts nor ends with
   * whitespace.
   */
  lemma StripSlice(s: string)
    ensures StrippedAt(s, Strip(s), |s| - |TrimStart(s)|)
    ensures |Strip(s)| > 0 ==> !IsSpace(Strip(s)[0]) && !IsSpace(Strip(s)[|Strip(s)| - 1])
  {
    var t := TrimStart(s);
    var r := TrimEnd(t);
    var k := |s| - |t|;
    TrimStartSuffix(s);
    TrimEndPrefix(t);
    forall i | k + |r| <= i < |s|
      ensures IsSpace(s[i])
    {
      assert s[i] == t[i - k];
    }
    forall j | 0 <= j < |r|
      ensures s[k..k + |r|][j] == r[j]
    {
      assert r[j] == t[j] == s[k + j];
    }
    assert s[k..k + |r|] == r;
    assert OccursAt(s, r, k);
  }

  // ---------------------------------------------------------------------
  // The line filter
  // ---------------------------------------------------------------------

  /**
   * A line is shown when the level filter is "All" or the level occurs in
   * the line, and the search term is empty or occurs in it ignoring case.
   */
  predicate LineMatches(line: string, logFilter: string, searchTerm: string)
  {
    && (logFilter == "All" || Contains(line, logFilter))
    && (searchTerm == "" || Contains(Lower(line), Lower(searchTerm)))
  }

  /** The lines the viewer keeps, in file order. */
  function KeptLines(lines: seq<string>, logFilter: string, searchTerm: string): (kept: seq<string>)
    ensures SubsequenceOf(kept, lines)
    ensures forall line :: line in kept <==> line in lines && LineMatches(line, logFilter, searchTerm)
    ensures forall line :: multiset(kept)[line] == if LineMatches(line, logFilter, searchTerm) then multiset(lines)[line] else 0
    ensures |kept| <= |lines|
    ensures logFilter == "All" && searchTerm == "" ==> kept == lines
  {
    Filter(lines, line => LineMatches(line, logFilter, searchTerm))
  }

  /** The kept lines of a log are those of all but its last line, then the last line if it passes. */
  lemma KeptLinesSnoc(lines: seq<string>, logFilter: string, searchTerm: string)
    requires |lines| > 0
    ensures var n := |lines| - 1;
            KeptLines(lines, logFilter, searchTerm)
            == KeptLines(lines[..n], logFilter, searchTerm)
               + (if LineMatches(lines[n], logFilter, searchTerm) then [lines[n]] else [])
  {
  }

  /** The filtering loop: walks the file's lines and appends each line that passes both filters. */
  method FilterLogs(logContent: seq<string>, logFilter: string, searchTerm: string) returns (filteredLogs: seq<string>)
    ensures filteredLogs == KeptLines(logContent, logFilter, searchTerm)
  {
    filteredLogs := [];
    for i := 0 to |logContent|
      invariant filteredLogs == KeptLines(logContent[..i], logFilter, searchTerm)
    {
      var line := logContent[i];
      assert logContent[..i + 1][..i] == logContent[..i];
      assert logContent[..i + 1][i] == line;
      if logFilter != "All" && !Contains(line, logFilter) {
        continue;
      }
      if searchTerm != "" && !Contains(Lower(line), Lower(searchTerm)) {
        continue;
      }
      filteredLogs := filteredLogs + [line];
    }
    assert logContent[..|logContent|] == logContent;
  }

  // ---------------------------------------------------------------------
  // Severity counts
  // ---------------------------------------------------------------------

  /** The number of lines in which keyword occurs. */
  function CountContaining(lines: seq<string>, keyword: string): (n: nat)
    ensures n <= |lines|
  {
    if |lines| == 0 then 0
    else
      var n := |lines| - 1;
      CountContaining(lines[..n], keyword) + (if Contains(lines[n], keyword) then 1 else 0)
  }

  /** The count shown for a level is the number of lines that level's filter keeps. */
  lemma {:induction false} CountMatchesLevelFilter(lines: seq<string>, level: string)
    requires level != "All"
    ensures CountContaining(lines, level) == |KeptLines(lines, level, "")|
  {
    if |lines| > 0 {
      var n := |lines| - 1;
      CountMatchesLevelFilter(lines[..n], level);
      KeptLinesSnoc(lines, level, "");
    }
  }

  // ---------------------------------------------------------------------
  // Classification of a displayed line
  // ---------------------------------------------------------------------

  datatype Severity = Error | Warning | Info | Other

  /** ERROR takes precedence over WARNING, WARNING over INFO. */
  function Classify(line: string): Severity
  {
    if Contains(line, "ERROR") then Error
    else if Contains(line, "WARNING") then Warning
    else if Contains(line, "INFO") then Info
    else Other
  }

  /** A keyword with no space in it cannot overlap a space removed by strip(). */
  predicate IsKeyword(kw: string)
  {
    |kw| > 0 && forall i :: 0 <= i < |kw| ==> !IsSpace(kw[i])
  }

  lemma {:induction false} TrimStartKeepsKeyword(s: string, kw: string)
    requires IsKeyword(kw)
    ensures Contains(TrimStart(s), kw) <==> Contains(s, kw)
    decreases |s|
  {
    if |s| > 0 && IsSpace(s[0]) {
      assert !IsPrefix(kw, s);
      TrimStartKeepsKeyword(s[1..], kw);
    }
  }

  lemma {:induction false} DropTrailingSpace(s: string, c: char, kw: string)
    requires IsKeyword(kw) && IsSpace(c)
    ensures Contains(s + [c], kw) <==> Contains(s, kw)
    decreases |s|
  {
    var t := s + [c];
    assert IsPrefix(kw, t) <==> IsPrefix(kw, s) by {
      if |kw| <= |s| {
        assert t[..|kw|] == s[..|kw|];
      } else if |kw| == |t| {
        assert t[..|kw|] == t && t[|t| - 1] == c;
        assert !IsSpace(kw[|kw| - 1]);
      }
    }
    if |s| > 0 {
      assert t[1..] == s[1..] + [c];
      DropTrailingSpace(s[1..], c, kw);
    } else {
      assert !Contains(t[1..], kw);
    }
  }

  lemma {:induction false} TrimEndKeepsKeyword(s: string, kw: string)
    requires IsKeyword(kw)
    ensures Contains(TrimEnd(s), kw) <==> Contains(s, kw)
    decreases |s|
  {
    if |s| > 0 && IsSpace(s[|s| - 1]) {
      var n := |s| - 1;
      assert s == s[..n] + [s[n]];
      DropTrailingSpace(s[..n], s[n], kw);
      TrimEndKeepsKeyword(s[..n], kw);
    }
  }

  /** Stripping a line does not change which keywords it contains. */
  lemma StripKeepsKeyword(s: string, kw: string)
    requires IsKeyword(kw)
    ensures Contains(Strip(s), kw) <==> Contains(s, kw)
  {
    TrimStartKeepsKeyword(s, kw);
    TrimEndKeepsKeyword(TrimStart(s), kw);
  }

  /** strip() keeps each of the three level keywords a line contains, and adds none. */
  lemma StripKeepsLevels(line: string)
    ensures Contains(Strip(line), "ERROR") == Contains(line, "ERROR")
    ensures Contains(Strip(line), "WARNING") == Contains(line, "WARNING")
    ensures Contains(Strip(line), "INFO") == Contains(line, "INFO")
  {
    StripKeepsKeyword(line, "ERROR");
    StripKeepsKeyword(line, "WARNING");
    StripKeepsKeyword(line, "INFO");
  }

  /** The severity of t depends only on which of the three keywords t contains. */
  lemma ClassifyByKeywords(t: string, line: string)
    requires Contains(t, "ERROR") == Contains(line, "ERROR")
    requires Contains(t, "WARNING") == Contains(line, "WARNING")
    requires Contains(t, "INFO") == Contains(line, "INFO")
    ensures LineMatches(line, "ERROR", "") <==> Classify(t) == Error
    ensures LineMatches(line, "WARNING", "") ==> Classify(t) in {Error, Warning}
    ensures Classify(t) == Warning <==> LineMatches(line, "WARNING", "") && !LineMatches(line, "ERROR", "")
    ensures LineMatches(line, "INFO", "") ==> Classify(t) != Other
    ensures Classify(t) == Other <==>
              !LineMatches(line, "ERROR", "") && !LineMatches(line, "WARNING", "") && !LineMatches(line, "INFO", "")
  {
  }

  /**
   * The severity shown for a line agrees with the level filter: a line the
   * "ERROR" filter keeps is shown as an error, one the "WARNING" filter
   * keeps as a warning or an error, one the "INFO" filter keeps never as
   * plain; a line is plain exactly when no level filter would keep it.
   */
  lemma {:induction false} ClassificationAgreesWithFilter(line: string)
    ensures LineMatches(line, "ERROR", "") <==> Classify(Strip(line)) == Error
    ensures LineMatches(line, "WARNING", "") ==> Classify(Strip(line)) in {Error, Warning}
    ensures Classify(Strip(line)) == Warning <==> LineMatches(line, "WARNING", "") && !LineMatches(line, "ERROR", "")
    ensures LineMatches(line, "INFO", "") ==> Classify(Strip(line)) != Other
    ensures Classify(Strip(line)) == Other <==>
              !LineMatches(line, "ERROR", "") && !LineMatches(line, "WARNING", "") && !LineMatches(line, "INFO", "")
  {
    StripKeepsLevels(line);
    ClassifyByKeywords(Strip(line), line);
  }

  // ---------------------------------------------------------------------
  // The display
  // ---------------------------------------------------------------------

  /** One displayed line: its severity (colour and icon) and its stripped text. */
  datatype DisplayEntry = DisplayEntry(severity: Severity, text: string)

  function EntryFor(line: string): DisplayEntry
  {
    var text := Strip(line);
    DisplayEntry(Classify(text), text)
  }

  const DisplayLimit: nat := 100

  /**
   * The display loop: walks the last 100 kept lines (or all of them, when
   * fewer) from the newest to the oldest.
   */
  method RenderLogDisplay(filteredLogs: seq<string>) returns (display: seq<DisplayEntry>)
    ensures |display| == if |filteredLogs| < DisplayLimit then |filteredLogs| else DisplayLimit
    ensures forall k :: 0 <= k < |display| ==> display[k] == EntryFor(filteredLogs[|filteredLogs| - 1 - k])
  {
    var window := if |filteredLogs| > DisplayLimit then filteredLogs[|filteredLogs| - DisplayLimit..] else filteredLogs;
    display := [];
    var i := |window|;
    while i > 0
      invariant 0 <= i <= |window|
      invariant |display| == |window| - i
      invariant forall k :: 0 <= k < |display| ==> display[k] == EntryFor(window[|window| - 1 - k])
    {
      i := i - 1;
      display := display + [EntryFor(window[i])];
      assert display[|display| - 1] == EntryFor(window[|window| - 1 - (|display| - 1)]);
    }
    forall k | 0 <= k < |display|
      ensures display[k] == EntryFor(filteredLogs[|filteredLogs| - 1 - k])
    {
      assert window[|window| - 1 - k] == filteredLogs[|filteredLogs| - 1 - k];
    }
  }
}
