/**
 * Concrete transcripts and lines, worked through the model: what the parser makes of a
 * system notice, a body line that happens to start with a time, an image placeholder and
 * a short conversation.
 */
module Scenarios {
  import opened Wrappers
  import opened PyStr
  import opened Patterns
  import opened Rules
  import opened Parser
  import opened ParserProperties

  /** No two adjacent characters of `s` from index `from` on are `a` then `b`. */
  predicate PairFreeFrom(s: string, a: char, b: char, from: nat)
    decreases |s| - from
  {
    from + 1 >= |s| || ((s[from] != a || s[from + 1] != b) && PairFreeFrom(s, a, b, from + 1))
  }

  /** A pattern whose first two characters never appear side by side does not occur. */
  lemma {:induction false} PairFreeNoOccurrence(s: string, pat: string, from: nat)
    requires |pat| >= 2 && PairFreeFrom(s, pat[0], pat[1], from)
    ensures forall i: nat :: from <= i ==> !OccursAt(s, pat, i)
    decreases |s| - from
  {
    if from + 1 < |s| {
      PairFreeNoOccurrence(s, pat, from + 1);
      if from + |pat| <= |s| {
        if s[from] != pat[0] {
          assert s[from..from + |pat|][0] != pat[0];
        } else {
          assert s[from..from + |pat|][1] != pat[1];
        }
      }
    }
  }

  /** A pattern whose first character does not appear in `s` does not occur in it. */
  lemma AbsentFirstChar(s: string, pat: string)
    requires pat != [] && pat[0] !in s
    ensures !Occurs(s, pat)
  {
    forall i: nat ensures !OccursAt(s, pat, i) {
      if i + |pat| <= |s| {
        assert s[i..i + |pat|][0] == s[i];
      }
    }
  }

  /** A phrase whose first character is absent from the first `u` characters does not occur
      before index `u`. */
  lemma AbsentBefore(s: string, pat: string, u: nat)
    requires pat != [] && u <= |s| && pat[0] !in s[..u]
    ensures forall i: nat :: i < u ==> !OccursAt(s, pat, i)
  {
    forall i: nat | i < u ensures !OccursAt(s, pat, i) {
      assert s[..u][i] == s[i];
      if i + |pat| <= |s| {
        assert s[i..i + |pat|][0] == s[i];
      }
    }
  }

  /** When action `k` is the first action in the text and first occurs at `u`, the sender is
      the text before `u` and the body is the action. */
  lemma NoticeSplit(text: string, k: nat, u: nat)
    requires IsFirstAction(text, k) && OccursAt(text, SystemActions[k], u)
    requires forall i: nat :: i < u ==> !OccursAt(text, SystemActions[k], i)
    ensures SplitUserMessage(text) == UserMessage(text[..u], SystemActions[k])
  {
    var act := SystemActions[k];
    var r := SplitUserMessage(text);
    var n := |r.user|;
    assert r.message == act && StartsWith(text, r.user + act);
    assert text[n..n + |act|] == text[..n + |act|][n..];
    assert OccursAt(text, act, n);
    assert text[..n] == text[..n + |act|][..n];
  }

  /** A system notice keeps the sender's name and uses the action phrase as the body. */
  lemma SystemNoticeSplits()
    ensures SplitUserMessage("Aliceが退出しました") == UserMessage("Alice", "が退出しました")
  {
    var text := "Aliceが退出しました";
    var act := SystemActions[4];
    assert act == "が退出しました";
    assert text == "Alice" + act;
    assert text[..5] == "Alice";
    assert text[5..5 + |act|] == act;
    assert OccursAt(text, act, 5);
    AbsentBefore(text, act, 5);
    forall j | 0 <= j < 4 ensures !Occurs(text, SystemActions[j]) {
      PairFreeNoOccurrence(text, SystemActions[j], 0);
    }
    assert IsFirstAction(text, 4);
    NoticeSplit(text, 4, 5);
  }

  /** A token, a whitespace run, then text starting with a non-whitespace character: the
      first-token split at those two indices. */
  lemma SplitAt(text: string, e: nat, j: nat)
    requires 0 < e < j < |text| && NoSpace(text[..e]) && SpaceBetween(text, e, j)
    requires !IsSpace(text[j])
    ensures FirstGapSplit(text, text[..e], text[j..])
  {
    assert SpaceBetween(text, 0, 0);
    assert text[0..e] == text[..e];
    assert text[j..][0] == text[j];
  }

  /** Text with no whitespace at all is one token with nothing after it. */
  lemma WholeToken(text: string)
    requires text != [] && NoSpace(text)
    ensures FirstGapSplit(text, text, [])
  {
    assert SpaceBetween(text, 0, 0);
    assert text[0..|text|] == text && text[|text|..] == [];
  }

  /** Text without any system action (none of them can occur without the particle "が")
      splits at its first whitespace run. */
  lemma NoticeFreeSplit(text: string, head: string, tail: string)
    requires 'が' !in text && FirstGapSplit(text, head, tail)
    ensures SplitUserMessage(text) == UserMessage(head, tail)
  {
    forall j | 0 <= j < |SystemActions| ensures !Occurs(text, SystemActions[j]) {
      assert SystemActions[j][0] == 'が';
      AbsentFirstChar(text, SystemActions[j]);
    }
    var a: nat :| a + |head| + |tail| <= |text| && SpaceBetween(text, 0, a) &&
      text[a..a + |head|] == head &&
      SpaceBetween(text, a + |head|, |text| - |tail|) && text[|text| - |tail|..] == tail &&
      (tail != [] ==> a + |head| < |text| - |tail|);
    assert text[a] == head[0];
    var r := SplitUserMessage(text);
    FirstGapSplitIsSplitOnce(text, r.user, r.message);
    FirstGapSplitIsSplitOnce(text, head, tail);
  }

  /** Ordinary text splits at its first whitespace run; the body keeps its own spacing. */
  lemma PlainTextSplits()
    ensures SplitUserMessage("Bob  hello world ") == UserMessage("Bob", "hello world ")
  {
    var text := "Bob  hello world ";
    assert 'が' !in text;
    assert text[..3] == "Bob" && text[5..] == "hello world ";
    SplitAt(text, 3, 5);
    NoticeFreeSplit(text, "Bob", "hello world ");
  }

  /** A word does not start with a prefix whose first character differs from its own. */
  lemma DifferentFirst(word: string, prefix: string)
    requires word != [] && prefix != [] && word[0] != prefix[0]
    ensures !StartsWith(word, prefix)
  {
    if |prefix| <= |word| {
      assert word[..|prefix|][0] == word[0];
    }
  }

  /** A word starting with no keyword's first character starts with no keyword. */
  lemma NoKeywordPrefix(word: string)
    requires word != []
    requires forall k :: 0 <= k < |NonUsernameKeywords| ==> NonUsernameKeywords[k][0] != word[0]
    ensures forall k :: 0 <= k < |NonUsernameKeywords| ==> !StartsWith(word, NonUsernameKeywords[k])
  {
    forall k | 0 <= k < |NonUsernameKeywords| ensures !StartsWith(word, NonUsernameKeywords[k]) {
      DifferentFirst(word, NonUsernameKeywords[k]);
    }
  }

  /** A first word that no keyword begins makes the text a message start. */
  lemma NoKeywordStarts(text: string, head: string, tail: string)
    requires FirstGapSplit(text, head, tail)
    requires forall k :: 0 <= k < |NonUsernameKeywords| ==> NonUsernameKeywords[k][0] != head[0]
    ensures IsValidMessageLine(text)
  {
    NoKeywordPrefix(head);
  }

  /** A line of a time, one space and text that does not end like a date header. */
  lemma TimestampedLine(line: string)
    requires |line| >= 7 && IsClock(line[..5]) && line[5] == ' ' && !IsSpace(line[6])
    requires line[|line| - 1] != WeekdaySuffix[1]
    ensures Classify(line) ==
      if IsValidMessageLine(line[6..]) then StartLine(line[..5], line[6..]) else ContinuationLine
  {
    assert line[..5][0] == line[0];
    assert Strip(line) != [];
    assert MatchDate(line).None?;
    SkipSpaceIs(line, 5, 6);
  }

  /** Where the parts of `time + " " + text` sit. */
  lemma JoinedParts(time: string, text: string)
    requires |time| == 5 && text != []
    ensures var line := time + " " + text;
      |line| >= 7 && line[..5] == time && line[5] == ' ' && line[6..] == text &&
      line[6] == text[0] && line[|line| - 1] == text[|text| - 1]
  {
  }

  /** A time, one space, then an accepted message line that does not end like a date
      header: the line starts a message. */
  lemma TimedStart(line: string, time: string, text: string)
    requires line == time + " " + text && IsClock(time)
    requires text != [] && !IsSpace(text[0]) && text[|text| - 1] != WeekdaySuffix[1]
    requires IsValidMessageLine(text)
    ensures Classify(line) == StartLine(time, text)
  {
    JoinedParts(time, text);
    TimestampedLine(line);
  }

  /** A date header gives the date and the day name. */
  lemma DateHeaderRecognised()
    ensures Classify("2030.01.01 水曜日") == DateLine("2030.01.01", "水曜日")
  {
    var line := "2030.01.01 水曜日";
    assert !IsSpace(line[0]);
    assert Strip(line) != [];
    assert line[..10] == "2030.01.01";
    assert IsCalendarDate(line[..10]);
    assert line[|line| - 2..] == WeekdaySuffix;
    assert MatchDate(line).Some?;
    SkipSpaceIs(line, 10, 11);
    assert line[11..] == "水曜日";
    assert MatchDate(line) == Some(DateGroups("2030.01.01", "水曜日"));
  }

  /** A date followed by an English weekday is not a date header. */
  lemma EnglishWeekdayIsNoHeader()
    ensures Classify("2030.01.01 Wednesday") == ContinuationLine
  {
    var line := "2030.01.01 Wednesday";
    assert !IsSpace(line[0]);
    assert Strip(line) != [];
    assert line[|line| - 1] != WeekdaySuffix[1];
    assert MatchDate(line).None?;
    assert line[..5][2] != ':';
    assert MatchMessage(line).None?;
  }

  /** A timestamped line whose first word is a keyword continues the previous message. */
  lemma KeywordLineContinues()
    ensures Classify("09:10 開始します") == ContinuationLine
  {
    var line := "09:10 開始します";
    var text := line[6..];
    assert text == "開始します";
    assert NoSpace(text);
    WholeToken(text);
    assert StartsWith(text, NonUsernameKeywords[3]);
    TimestampedLine(line);
  }

  /** A body that is only the placeholder, padded with whitespace, is excluded; one that
      merely contains it is kept. */
  lemma PlaceholderOnlyExcluded()
    ensures ShouldExclude(Record(None, None, "09:05", "Bob", " 画像\U{3000}"))
    ensures !ShouldExclude(Record(None, None, "09:05", "Bob", "画像です"))
  {
    var padded, longer := " 画像\U{3000}", "画像です";
    StripBetween(padded, 1, 3);
    assert padded[1..3] == ImagePlaceholder;
    StripBetween(longer, 0, 4);
  }

  /** "Bob hello" is Bob's message "hello". */
  lemma GreetingSplits()
    ensures SplitUserMessage("Bob hello") == UserMessage("Bob", "hello")
  {
    var text := "Bob hello";
    assert text[..3] == "Bob" && text[4..] == "hello";
    SplitAt(text, 3, 4);
    assert 'が' !in text;
    NoticeFreeSplit(text, "Bob", "hello");
  }

  /** "09:00 Bob hello" starts a message from Bob whose body is "hello". */
  lemma GreetingStarts()
    ensures Classify("09:00 Bob hello") == StartLine("09:00", "Bob hello")
  {
    var line := "09:00 Bob hello";
    var text := "Bob hello";
    assert line == "09:00" + " " + text && IsClock("09:00");
    assert !IsSpace(text[0]) && text[|text| - 1] != WeekdaySuffix[1];
    assert text[..3] == "Bob" && text[4..] == "hello";
    SplitAt(text, 3, 4);
    NoKeywordStarts(text, "Bob", "hello");
    TimedStart(line, "09:00", text);
  }

  /** "Bob 画像" is Bob's message "画像". */
  lemma PictureSplits()
    ensures SplitUserMessage("Bob 画像") == UserMessage("Bob", "画像")
  {
    var text := "Bob 画像";
    assert text[..3] == "Bob" && text[4..] == "画像";
    SplitAt(text, 3, 4);
    assert 'が' !in text;
    NoticeFreeSplit(text, "Bob", "画像");
  }

  /** "09:05 Bob 画像" starts a message from Bob whose body is the image placeholder. */
  lemma PictureStarts()
    ensures Classify("09:05 Bob 画像") == StartLine("09:05", "Bob 画像")
  {
    var line := "09:05 Bob 画像";
    var text := "Bob 画像";
    assert line == "09:05" + " " + text && IsClock("09:05");
    assert !IsSpace(text[0]) && text[|text| - 1] != WeekdaySuffix[1];
    assert text[..3] == "Bob" && text[4..] == "画像";
    SplitAt(text, 3, 4);
    NoKeywordStarts(text, "Bob", "画像");
    TimedStart(line, "09:05", text);
  }

  /** A short plain line is a continuation. */
  lemma PlainLineContinues()
    ensures Classify("there") == ContinuationLine
  {
    assert !IsSpace("there"[0]);
  }

  /** The loop over the first `i + 1` lines is one more step after the first `i`. */
  lemma RunPrefix(s: ParserState, lines: seq<string>, i: nat)
    requires i < |lines|
    ensures Run(s, lines[..i + 1]) == Step(Run(s, lines[..i]), lines[i])
  {
    assert lines[..i + 1][..i] == lines[..i];
  }

  /** A sequence is its own longest prefix. */
  lemma WholePrefix<T>(xs: seq<T>)
    ensures xs[..|xs|] == xs
  {
  }

  /** Four lines whose steps are known, one by one. */
  lemma RunFour(s: ParserState, lines: seq<string>, p1: ParserState, p2: ParserState, p3: ParserState, p4: ParserState)
    requires |lines| == 4
    requires Step(s, lines[0]) == p1 && Step(p1, lines[1]) == p2
    requires Step(p2, lines[2]) == p3 && Step(p3, lines[3]) == p4
    ensures Run(s, lines) == p4
  {
    RunPrefix(s, lines, 0);
    assert lines[..0] == [];
    RunPrefix(s, lines, 1);
    RunPrefix(s, lines, 2);
    RunPrefix(s, lines, 3);
    WholePrefix(lines);
  }

  /** A date header with nothing in flight sets the date and the day. */
  lemma StepDated(s: ParserState, line: string, date: string, day: string)
    requires s.current.None? && Classify(line) == DateLine(date, day)
    ensures Step(s, line) == s.(date := Some(date), day := Some(day))
  {
  }

  /** A message start with nothing in flight opens the record and writes nothing. */
  lemma StepOpens(s: ParserState, line: string, text: string, r: Record)
    requires s.current.None? && r.date == s.date && r.day == s.day
    requires Classify(line) == StartLine(r.time, text)
    requires SplitUserMessage(text) == UserMessage(r.user, r.message)
    ensures Step(s, line) == s.(current := Some(r))
  {
  }

  /** A message start with a record in flight settles it and opens the new one. */
  lemma StepReplaces(s: ParserState, line: string, text: string, r: Record)
    requires r.date == s.date && r.day == s.day
    requires Classify(line) == StartLine(r.time, text)
    requires SplitUserMessage(text) == UserMessage(r.user, r.message)
    ensures Step(s, line) == Settle(s).(current := Some(r))
  {
  }

  /** A continuation line extends the body of the record in flight. */
  lemma StepExtends(s: ParserState, line: string, m: Record)
    requires s.current == Some(m) && Classify(line) == ContinuationLine
    ensures Step(s, line) == s.(current := Some(m.(message := AppendLine(m.message, line))))
  {
  }

  /** A date header, a message start, a plain line and a second start, whatever their text:
      the plain line joins the first body and the second start settles the first record. */
  lemma HeaderStartLineStart(
    lines: seq<string>, date: string, day: string,
    first: Record, second: Record, firstText: string, secondText: string)
    requires |lines| == 4
    requires Classify(lines[0]) == DateLine(date, day)
    requires Classify(lines[1]) == StartLine(first.time, firstText)
    requires SplitUserMessage(firstText) == UserMessage(first.user, first.message)
    requires Classify(lines[2]) == ContinuationLine
    requires Classify(lines[3]) == StartLine(second.time, secondText)
    requires SplitUserMessage(secondText) == UserMessage(second.user, second.message)
    requires first.date == second.date == Some(date) && first.day == second.day == Some(day)
    ensures var joined := first.(message := AppendLine(first.message, lines[2]));
      Run(Init, lines) ==
        Settle(ParserState(Some(date), Some(day), Some(joined), 0, [])).(current := Some(second))
  {
    var s1 := ParserState(Some(date), Some(day), None, 0, []);
    var s2 := s1.(current := Some(first));
    var s3 := s1.(current := Some(first.(message := AppendLine(first.message, lines[2]))));
    var s4 := Settle(s3).(current := Some(second));
    StepDated(Init, lines[0], date, day);
    StepOpens(s1, lines[1], firstText, first);
    StepExtends(s2, lines[2], first);
    StepReplaces(s3, lines[3], secondText, second);
    RunFour(Init, lines, s1, s2, s3, s4);
  }

  /** A record whose body is a greeting is written. */
  lemma GreetingKept(r: Record)
    requires r.message == "hello\nthere"
    ensures !ShouldExclude(r)
  {
    assert r.message[0] == 'h';
  }

  /** A record whose body is the picture placeholder is dropped. */
  lemma PictureExcluded(r: Record)
    requires r.message == "画像"
    ensures ShouldExclude(r)
  {
    StripBetween(r.message, 0, 2);
  }

  /** A kept record settled by an excluded one, then the end-of-input flush: the kept record
      is written and the excluded one counted, and it stays in the slot. */
  lemma KeptThenExcluded(lines: seq<string>, date: string, day: string, kept: Record, dropped: Record)
    requires !ShouldExclude(kept) && ShouldExclude(dropped)
    requires Run(Init, lines) ==
      Settle(ParserState(Some(date), Some(day), Some(kept), 0, [])).(current := Some(dropped))
    ensures Parse(lines) == ParserState(Some(date), Some(day), Some(dropped), 1, [kept])
  {
  }

  /** A short transcript: the header dates the records, the plain line joins the first
      body, and the picture-only record is counted as excluded. */
  lemma ShortTranscript()
    ensures Parse(["2030.01.01 水曜日", "09:00 Bob hello", "there", "09:05 Bob 画像"]) ==
      ParserState(
        Some("2030.01.01"), Some("水曜日"),
        Some(Record(Some("2030.01.01"), Some("水曜日"), "09:05", "Bob", "画像")),
        1,
        [Record(Some("2030.01.01"), Some("水曜日"), "09:00", "Bob", "hello\nthere")])
  {
    var lines := ["2030.01.01 水曜日", "09:00 Bob hello", "there", "09:05 Bob 画像"];
    var date, day := "2030.01.01", "水曜日";
    var first := Record(Some(date), Some(day), "09:00", "Bob", "hello");
    var picture := Record(Some(date), Some(day), "09:05", "Bob", "画像");
    var joined := first.(message := "hello\nthere");
    assert AppendLine(first.message, lines[2]) == joined.message;
    GreetingKept(joined);
    PictureExcluded(picture);
    DateHeaderRecognised();
    GreetingStarts();
    GreetingSplits();
    PlainLineContinues();
    PictureStarts();
    PictureSplits();
    HeaderStartLineStart(lines, date, day, first, picture, "Bob hello", "Bob 画像");
    KeptThenExcluded(lines, date, day, joined, picture);
  }
}
