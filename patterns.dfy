/**
 * The two anchored regular expressions of the LINE transcript parser, written out as
 * predicates over one line (`main.py`, `DATE_PATTERN` and `MESSAGE_PATTERN`). A line never
 * holds a line break (it comes from line iteration with the terminator stripped), so `.`
 * matches every character and `$` is the end of the line.
 */
module Patterns {
  import opened Wrappers
  import opened PyStr

  /** `\d{2}:\d{2}` */
  predicate IsClock(t: string) {
    |t| == 5 && IsDigit(t[0]) && IsDigit(t[1]) && t[2] == ':' && IsDigit(t[3]) && IsDigit(t[4])
  }

  /** `\d{4}\.\d{2}\.\d{2}` */
  predicate IsCalendarDate(d: string) {
    |d| == 10 && IsDigit(d[0]) && IsDigit(d[1]) && IsDigit(d[2]) && IsDigit(d[3]) &&
    d[4] == '.' && IsDigit(d[5]) && IsDigit(d[6]) && d[7] == '.' && IsDigit(d[8]) && IsDigit(d[9])
  }

  /** The weekday suffix every date header ends with ("day of the week"). */
  const WeekdaySuffix: string := "曜日"

  /** The two groups of a `DATE_PATTERN` match. */
  datatype DateGroups = DateGroups(date: string, day: string)

  /** The two groups of a `MESSAGE_PATTERN` match. */
  datatype MessageGroups = MessageGroups(time: string, text: string)

  /** `line` is `prefix`, a non-empty whitespace run, then `rest`, where the run is as long as
      it can be while `rest` keeps at least `minRest` characters: the group boundary a greedy
      `\s+` followed by a pattern that needs `minRest` characters settles on. */
  predicate GreedyGap(line: string, prefixLen: nat, rest: string, minRest: nat) {
    prefixLen < |line| - |rest| && SpaceBetween(line, prefixLen, |line| - |rest|) &&
    line[|line| - |rest|..] == rest && |rest| >= minRest &&
    (|rest| == minRest || rest == [] || !IsSpace(rest[0]))
  }

  /** Where the second group starts: after the whitespace run that begins at `from`, but
      early enough to leave `minRest` characters for the rest of the pattern. */
  function GroupStart(line: string, from: nat, minRest: nat): (k: nat)
    requires from + minRest < |line| && IsSpace(line[from])
    ensures from < k <= |line| - minRest && SpaceBetween(line, from, k)
    ensures k == |line| - minRest || !IsSpace(line[k])
  {
    var w := SkipSpace(line, from);
    if w <= |line| - minRest then w else |line| - minRest
  }

  /** The second group starting where `GroupStart` says is the one a greedy `\s+` gives. */
  lemma GroupStartIsGreedy(line: string, from: nat, minRest: nat)
    requires from + minRest < |line| && IsSpace(line[from])
    ensures GreedyGap(line, from, line[GroupStart(line, from, minRest)..], minRest)
  {
    var k := GroupStart(line, from, minRest);
    var rest := line[k..];
    assert |line| - |rest| == k;
    assert rest == [] || rest[0] == line[k];
  }

  /** `DATE_PATTERN.match(line)` for `^(\d{4}\.\d{2}\.\d{2})\s+(.+曜日)$`. */
  function MatchDate(line: string): (m: Option<DateGroups>)
    ensures m.Some? <==>
      |line| >= 14 && IsCalendarDate(line[..10]) && IsSpace(line[10]) && EndsWith(line, WeekdaySuffix)
    ensures m.Some? ==>
      m.value.date == line[..10] && GreedyGap(line, 10, m.value.day, 3) &&
      EndsWith(m.value.day, WeekdaySuffix)
  {
    if |line| >= 14 && IsCalendarDate(line[..10]) && IsSpace(line[10]) && EndsWith(line, WeekdaySuffix) then
      var day := line[GroupStart(line, 10, 3)..];
      GroupStartIsGreedy(line, 10, 3);
      assert day[|day| - 2..] == line[|line| - 2..];
      Some(DateGroups(line[..10], day))
    else
      None
  }

  /** `MESSAGE_PATTERN.match(line)` for `^(\d{2}:\d{2})\s+(.+)$`. */
  function MatchMessage(line: string): (m: Option<MessageGroups>)
    ensures m.Some? <==> |line| >= 7 && IsClock(line[..5]) && IsSpace(line[5])
    ensures m.Some? ==> m.value.time == line[..5] && GreedyGap(line, 5, m.value.text, 1)
  {
    if |line| >= 7 && IsClock(line[..5]) && IsSpace(line[5]) then
      GroupStartIsGreedy(line, 5, 1);
      Some(MessageGroups(line[..5], line[GroupStart(line, 5, 1)..]))
    else
      None
  }
}
