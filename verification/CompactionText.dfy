/** The bounded summary and transcript of a list of items (internal/domain/compaction.go). */
module CompactionText {
  import opened Wrappers
  import opened Text
  import opened Gathering
  import opened CompactionState

  // ---------------------------------------------------------------- summary

  /** The lines a summary shows: the first sixteen that are not blank, each cut to 240 runes. */
  function SummaryLines<I>(items: seq<I>, line: I -> string): seq<string> {
    First(Gather(LineCleaner(line, 240), items), 16)
  }

  function LineCleaner<I>(line: I -> string, limit: int): I -> Option<string> {
    (item: I) => Clean(line(item), limit)
  }

  /** `line` is the one-line description of an item. */
  method BuildSyntheticCompactionSummary<I(!new)>(items: seq<I>, line: I -> string) returns (r: string)
    ensures r == if SummaryLines(items, line) == [] then NO_CONTEXT else Join(SummaryLines(items, line), "\n")
    ensures |r| <= 3855
  {
    var lines := Collect(LineCleaner(line, 240), items, 16);
    SummaryFits(items, line);
    if |lines| == 0 {
      return NO_CONTEXT;
    }
    return TruncateRunes(Join(lines, "\n"), 4096);
  }

  predicate AllWithin(lines: seq<string>, limit: nat) {
    forall k :: 0 <= k < |lines| ==> |lines[k]| <= limit
  }

  lemma {:induction false} JoinBound(lines: seq<string>, limit: nat)
    requires lines != [] && AllWithin(lines, limit)
    ensures |Join(lines, "\n")| <= |lines| * limit + |lines| - 1
    decreases lines
  {
    if |lines| > 1 {
      assert AllWithin(lines[1..], limit);
      JoinBound(lines[1..], limit);
      assert |lines[1..]| * limit + limit == |lines| * limit;
    }
  }

  /** Sixteen lines of 240 runes stay below 4096: the outer truncation has nothing to cut. */
  lemma SummaryFits<I(!new)>(items: seq<I>, line: I -> string)
    ensures |Join(SummaryLines(items, line), "\n")| <= 3855
    ensures TruncateRunes(Join(SummaryLines(items, line), "\n"), 4096) == Join(SummaryLines(items, line), "\n")
  {
    var f := LineCleaner(line, 240);
    var lines := SummaryLines(items, line);
    forall k | 0 <= k < |lines| ensures |lines[k]| <= 240 {
      assert lines[k] in Gather(f, items);
      GatherMembers(f, items, lines[k]);
      var item :| item in items && f(item) == Some(lines[k]);
      CleanIsNormal(line(item), 240);
    }
    if lines != [] {
      JoinBound(lines, 240);
    }
  }

  /** Of items that all have something to show, the first sixteen are shown, in order and each cut to 240 runes. */
  lemma SummaryShows<I>(items: seq<I>, line: I -> string)
    requires forall k :: 0 <= k < |items| ==> TrimSpace(line(items[k])) != ""
    ensures |SummaryLines(items, line)| == if |items| < 16 then |items| else 16
    ensures forall k :: 0 <= k < |SummaryLines(items, line)| ==>
              SummaryLines(items, line)[k] == TruncateRunes(TrimSpace(line(items[k])), 240)
  {
    var f := LineCleaner(line, 240);
    AllGathered(f, items);
  }

  /** An item with nothing to show changes nothing. */
  lemma SummarySkips<I>(before: seq<I>, item: I, after: seq<I>, line: I -> string)
    requires TrimSpace(line(item)) == ""
    ensures SummaryLines(before + [item] + after, line) == SummaryLines(before + after, line)
  {
    GatherSkips(LineCleaner(line, 240), before, item, after);
  }

  // ---------------------------------------------------------------- transcript

  function Digits(n: nat): string {
    if n < 10 then [('0' as int + n) as char] else Digits(n / 10) + Digits(n % 10)
  }

  /** At least three digits, with leading zeros. */
  function Padded(n: nat): string {
    (if n < 10 then "00" else if n < 100 then "0" else "") + Digits(n)
  }

  function Value(digits: string): int {
    if digits == "" then 0
    else 10 * Value(digits[..|digits| - 1]) + (digits[|digits| - 1] as int - '0' as int)
  }

  predicate AreDigits(s: string) {
    forall i :: 0 <= i < |s| ==> '0' <= s[i] <= '9'
  }

  lemma {:induction false} DigitsAre(n: nat)
    ensures AreDigits(Digits(n)) && Value(Digits(n)) == n && Digits(n) != ""
    ensures if n < 10 then |Digits(n)| == 1 else Digits(n)[0] != '0' && |Digits(n)| == |Digits(n / 10)| + 1
  {
    if n >= 10 {
      DigitsAre(n / 10);
      DigitsAre(n % 10);
      var front, last := Digits(n / 10), Digits(n % 10);
      assert (front + last)[..|front|] == front;
    }
  }

  /** A number of an entry: its decimal digits, with leading zeros exactly up to three places. */
  lemma PaddedIs(n: nat)
    ensures AreDigits(Padded(n)) && Value(Padded(n)) == n && |Padded(n)| >= 3
    ensures |Padded(n)| > 3 ==> Padded(n)[0] != '0'
  {
    DigitsAre(n);
    DigitsAre(n / 10);
    DigitsAre(n / 10 / 10);
    assert "" + Digits(n) == Digits(n);
    if n < 100 { ZerosFirst(if n < 10 then "00" else "0", Digits(n)); }
  }

  lemma {:induction false} ZerosFirst(zeros: string, digits: string)
    requires forall i :: 0 <= i < |zeros| ==> zeros[i] == '0'
    ensures Value(zeros + digits) == Value(digits)
    decreases |zeros| + |digits|
  {
    var s := zeros + digits;
    if digits != "" {
      assert s[..|s| - 1] == zeros + digits[..|digits| - 1];
      ZerosFirst(zeros, digits[..|digits| - 1]);
    } else if zeros != "" {
      assert s == zeros && s[..|s| - 1] == zeros[..|zeros| - 1] + "";
      ZerosFirst(zeros[..|zeros| - 1], "");
    }
  }

  function Entry<I>(item: I, n: nat, line: I -> string): string {
    Padded(n) + (" " + TrimSpace(line(item)))
  }

  /** The numbered lines of the first `n` items; blank ones are left out but keep their number. */
  function Numbered<I>(items: seq<I>, n: nat, line: I -> string): seq<string>
    requires n <= |items|
  {
    if n == 0 then []
    else
      Numbered(items, n - 1, line) + if TrimSpace(line(items[n - 1])) == "" then [] else [Entry(items[n - 1], n, line)]
  }

  function Shown(count: nat, maxItems: int): nat {
    if 0 < maxItems < count then maxItems else count
  }

  /** The transcript without a bound on its runes. */
  function FullTranscript<I>(items: seq<I>, maxItems: int, line: I -> string): string {
    Join(Numbered(items, Shown(|items|, maxItems), line), "\n")
  }

  /** `lines` show the items at `indexes`, in order, each after its number counted from one. */
  predicate ShowsItems<I>(items: seq<I>, line: I -> string, indexes: seq<nat>, lines: seq<string>) {
    && |lines| == |indexes|
    && forall k :: 0 <= k < |lines| ==>
         indexes[k] < |items| && lines[k] == Padded(indexes[k] + 1) + " " + TrimSpace(line(items[indexes[k]]))
  }

  ghost predicate ListsShown<I>(items: seq<I>, n: nat, line: I -> string, indexes: seq<nat>)
    requires n <= |items|
  {
    && (forall k, l :: 0 <= k < l < |indexes| ==> indexes[k] < indexes[l])
    && (forall i: nat :: i in indexes <==> i < n && TrimSpace(line(items[i])) != "")
  }

  lemma {:induction false} NumberedShows<I>(items: seq<I>, n: nat, line: I -> string) returns (indexes: seq<nat>)
    requires n <= |items|
    ensures ListsShown(items, n, line, indexes) && ShowsItems(items, line, indexes, Numbered(items, n, line))
    decreases n
  {
    indexes := [];
    if n > 0 {
      indexes := NumberedShows(items, n - 1, line);
      if TrimSpace(line(items[n - 1])) != "" {
        ListsNext(items, n - 1, line, indexes);
        ShowsNext(items, n - 1, line, indexes, Numbered(items, n - 1, line));
        indexes := indexes + [n - 1];
      }
    }
  }

  lemma ListsNext<I>(items: seq<I>, n: nat, line: I -> string, indexes: seq<nat>)
    requires n < |items| && ListsShown(items, n, line, indexes) && TrimSpace(line(items[n])) != ""
    ensures ListsShown(items, n + 1, line, indexes + [n])
  {
    assert forall k :: 0 <= k < |indexes| ==> indexes[k] in indexes;
    forall i: nat
      ensures i in indexes + [n] <==> i < n + 1 && TrimSpace(line(items[i])) != ""
    {
      assert i in indexes + [n] <==> i in indexes || i == n;
    }
  }

  lemma ShowsNext<I>(items: seq<I>, n: nat, line: I -> string, indexes: seq<nat>, lines: seq<string>)
    requires n < |items| && ShowsItems(items, line, indexes, lines)
    ensures ShowsItems(items, line, indexes + [n], lines + [Entry(items[n], n + 1, line)])
  {
    var text := TrimSpace(line(items[n]));
    assert Padded(n + 1) + (" " + text) == Padded(n + 1) + " " + text;
  }

  /** The whole transcript: a line for each of the first `maxItems` items that is not blank, or of all of them. */
  lemma TranscriptShows<I>(items: seq<I>, maxItems: int, line: I -> string) returns (indexes: seq<nat>,
                                                                                     lines: seq<string>)
    ensures FullTranscript(items, maxItems, line) == Join(lines, "\n") && ShowsItems(items, line, indexes, lines)
    ensures var n := if maxItems <= 0 || |items| <= maxItems then |items| else maxItems;
            ListsShown(items, n, line, indexes)
  {
    var n := Shown(|items|, maxItems);
    indexes := NumberedShows(items, n, line);
    lines := Numbered(items, n, line);
  }

  /** `r` is `full` cut down to `n` runes: truncated with an ellipsis, or a plain prefix at most one rune short. */
  predicate IsCut(r: string, full: string, n: int) {
    r == TruncateRunes(full, n) || (r <= full && n - 1 <= |r| <= n)
  }

  /** What precedes the next line. */
  function Start(lines: seq<string>): string {
    if lines == [] then "" else Join(lines, "\n") + "\n"
  }

  lemma JoinLast(lines: seq<string>, x: string)
    ensures Join(lines + [x], "\n") == Start(lines) + x
  {
    if lines == [] {
      assert lines + [x] == [x];
    } else {
      JoinSnoc(lines, x, "\n");
    }
  }

  lemma {:induction false} JoinStarts(a: seq<string>, b: seq<string>)
    requires a != []
    ensures Join(a, "\n") <= Join(a + b, "\n")
    decreases b
  {
    if b == [] {
      assert a + b == a;
    } else {
      var n := |b| - 1;
      JoinStarts(a, b[..n]);
      assert a + b == (a + b[..n]) + [b[n]];
      JoinSnoc(a + b[..n], b[n], "\n");
    }
  }

  lemma {:induction false} NumberedGrows<I>(items: seq<I>, m: nat, n: nat, line: I -> string)
    requires m <= n <= |items|
    ensures Numbered(items, m, line) <= Numbered(items, n, line)
    decreases n
  {
    if m < n {
      NumberedGrows(items, m, n - 1, line);
    }
  }

  /** The line that does not fit is cut where the whole transcript would be. */
  lemma CutHere(start: string, entry: string, full: string, n: int)
    requires start + entry <= full && |start| < n && |entry| > n - |start|
    ensures IsCut(start + TruncateRunes(entry, n - |start|), full, n)
  {
    var room := n - |start|;
    assert full[..|start|] == start && full[|start|..|start| + |entry|] == entry;
    if room == 1 {
      assert full[..n] == start + entry[..1];
    } else {
      assert full[..n - 1] == start + entry[..room - 1];
      assert start + (entry[..room - 1] + ELLIPSIS) == (start + entry[..room - 1]) + ELLIPSIS;
    }
  }

  lemma StopHere(lines: seq<string>, entry: string, full: string, n: int)
    requires Start(lines) + entry <= full && n >= 0 && n <= |Start(lines)| <= n + 1
    ensures IsCut(Join(lines, "\n"), full, n)
  {
    var start := Start(lines);
    assert full[..|start|] == start;
    if lines != [] {
      assert start[..|start| - 1] == Join(lines, "\n");
    }
  }

  /** The next line, and all before it, begin the whole transcript. */
  lemma NextBegins<I>(items: seq<I>, idx: nat, shown: nat, line: I -> string)
    requires idx < shown <= |items| && TrimSpace(line(items[idx])) != ""
    ensures Start(Numbered(items, idx, line)) + Entry(items[idx], idx + 1, line) <=
            Join(Numbered(items, shown, line), "\n")
  {
    var lines, entry := Numbered(items, idx, line), Entry(items[idx], idx + 1, line);
    NumberedGrows(items, idx + 1, shown, line);
    var all := Numbered(items, shown, line);
    assert all == (lines + [entry]) + all[|lines| + 1..];
    JoinStarts(lines + [entry], all[|lines| + 1..]);
    JoinLast(lines, entry);
  }

  /** `r` is the whole text where that is shorter than the bound, and otherwise the whole text cut below it. */
  predicate IsBounded(r: string, full: string, maxRunes: int) {
    && |r| < maxRunes
    && if |full| < maxRunes then r == full else IsCut(r, full, maxRunes - 1)
  }

  /** The last line of a transcript that does not fit: cut, or left out where nothing of it fits. */
  method CloseTranscript(lines: seq<string>, entry: string, maxRunes: int, ghost full: string) returns (r: string)
    requires Start(lines) + entry <= full && 0 < maxRunes && |Start(lines)| <= maxRunes < |Start(lines)| + |entry| + 1
    ensures IsBounded(r, full, maxRunes)
  {
    var remaining := maxRunes - |Start(lines)| - 1;
    if remaining <= 0 {
      StopHere(lines, entry, full, maxRunes - 1);
      return Join(lines, "\n");
    }
    CutHere(Start(lines), entry, full, maxRunes - 1);
    JoinLast(lines, TruncateRunes(entry, remaining));
    return Join(lines + [TruncateRunes(entry, remaining)], "\n");
  }

  /** `line` is the one-line description of an item. */
  method BuildSyntheticCompactionTranscript<I>(items: seq<I>, maxItems: int, maxRunes: int, line: I -> string)
    returns (r: string)
    ensures maxRunes <= 0 ==> r == ""
    ensures maxRunes > 0 ==> IsBounded(r, FullTranscript(items, maxItems, line), maxRunes)
  {
    if maxRunes <= 0 {
      return "";
    }
    var shown := Shown(|items|, maxItems);
    var lines := [];
    var runes := 0;
    for idx := 0 to shown
      invariant lines == Numbered(items, idx, line)
      invariant runes == |Start(lines)| <= maxRunes
    {
      var text := TrimSpace(line(items[idx]));
      if text == "" {
        continue;
      }
      var entry := Padded(idx + 1) + (" " + text);
      if runes + |entry| + 1 > maxRunes {
        NextBegins(items, idx, shown, line);
        r := CloseTranscript(lines, entry, maxRunes, FullTranscript(items, maxItems, line));
        return;
      }
      StartNext(lines, entry);
      lines := lines + [entry];
      runes := runes + |entry| + 1;
    }
    return Join(lines, "\n");
  }

  lemma StartNext(lines: seq<string>, entry: string)
    ensures |Start(lines + [entry])| == |Start(lines)| + |entry| + 1
  {
    JoinLast(lines, entry);
  }
}
