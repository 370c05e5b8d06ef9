/**
 * What the parser guarantees over a whole transcript: every started record is written or
 * excluded exactly once, nothing written is an image placeholder, blank lines do not
 * matter, continuation lines fold into the body with line breaks, and records take the
 * date of the last date header before them.
 */
module ParserProperties {
  import opened Wrappers
  import opened PyStr
  import opened Patterns
  import opened Rules
  import opened Parser

  /** Number of lines that start a new record. */
  function StartCount(lines: seq<string>): nat
    decreases |lines|
  {
    if lines == [] then 0
    else StartCount(lines[..|lines| - 1]) + (if Classify(lines[|lines| - 1]).StartLine? then 1 else 0)
  }

  /** `"\n".join(xs)` */
  function JoinLines(xs: seq<string>): string
    decreases |xs|
  {
    if |xs| == 0 then ""
    else if |xs| == 1 then xs[0]
    else JoinLines(xs[..|xs| - 1]) + "\n" + xs[|xs| - 1]
  }

  /** The lines that are not blank, in order. */
  function NonBlank(lines: seq<string>): (r: seq<string>)
    ensures forall i :: 0 <= i < |r| ==> !AllSpace(r[i])
    decreases |lines|
  {
    if lines == [] then []
    else if AllSpace(lines[|lines| - 1]) then NonBlank(lines[..|lines| - 1])
    else NonBlank(lines[..|lines| - 1]) + [lines[|lines| - 1]]
  }

  /** No written record is one the exclusion rule drops. */
  predicate AllKept(records: seq<Record>) {
    forall i :: 0 <= i < |records| ==> !ShouldExclude(records[i])
  }

  /** Running over `a` and then over `b` is running over `a + b`. */
  lemma {:induction false} RunConcat(s: ParserState, a: seq<string>, b: seq<string>)
    ensures Run(s, a + b) == Run(Run(s, a), b)
    decreases |b|
  {
    if b == [] {
      assert a + b == a;
    } else {
      var c := b[..|b| - 1];
      assert (a + b)[..|a + b| - 1] == a + c;
      assert (a + b)[|a + b| - 1] == b[|b| - 1];
      RunConcat(s, a, c);
    }
  }

  /** Each start line adds exactly one record to those written, excluded or in flight;
      no other line adds or loses one. */
  lemma {:induction false} RunAccounts(s: ParserState, lines: seq<string>)
    ensures Accounted(Run(s, lines)) == Accounted(s) + StartCount(lines)
    decreases |lines|
  {
    if lines != [] {
      RunAccounts(s, lines[..|lines| - 1]);
    }
  }

  /** Conservation: after the end-of-input flush, the records written plus the records
      excluded are exactly the message starts the transcript holds. */
  lemma Conservation(lines: seq<string>)
    ensures |Parse(lines).emitted| + Parse(lines).excluded == StartCount(lines)
  {
    RunAccounts(Init, lines);
  }

  /** One line writes nothing, or writes the in-flight record when it is not excluded. */
  lemma ApplyEmits(s: ParserState, kind: LineKind, line: string)
    ensures var t := Apply(s, kind, line);
      t.emitted == s.emitted ||
      (s.current.Some? && !ShouldExclude(s.current.value) && t.emitted == s.emitted + [s.current.value])
  {
  }

  /** The output only grows, the exclusion count never falls, and what is added is never a
      placeholder-only record. */
  lemma {:induction false} RunKeeps(s: ParserState, lines: seq<string>)
    requires AllKept(s.emitted)
    ensures s.emitted <= Run(s, lines).emitted && s.excluded <= Run(s, lines).excluded
    ensures AllKept(Run(s, lines).emitted)
    decreases |lines|
  {
    if lines != [] {
      var x := lines[|lines| - 1];
      RunKeeps(s, lines[..|lines| - 1]);
      var t := Run(s, lines[..|lines| - 1]);
      var u := Run(s, lines);
      assert u == Apply(t, Classify(x), x);
      ApplyEmits(t, Classify(x), x);
      assert t.emitted <= u.emitted && t.excluded <= u.excluded;
      forall i | 0 <= i < |u.emitted| ensures !ShouldExclude(u.emitted[i]) {
        if i < |t.emitted| {
          assert u.emitted[i] == t.emitted[i];
        }
      }
    }
  }

  /** The flush keeps what was written and adds nothing placeholder-only. */
  lemma SettleKeeps(s: ParserState)
    requires AllKept(s.emitted)
    ensures s.emitted <= Settle(s).emitted && AllKept(Settle(s).emitted)
  {
    var u := Settle(s);
    forall i | 0 <= i < |u.emitted| ensures !ShouldExclude(u.emitted[i]) {
      if i < |s.emitted| {
        assert u.emitted[i] == s.emitted[i];
      }
    }
  }

  /** Nothing `parse_file` writes is a placeholder-only record, and the output of the loop is
      a prefix of the final output. */
  lemma ParseEmitsOnlyKept(lines: seq<string>)
    ensures AllKept(Parse(lines).emitted)
    ensures Run(Init, lines).emitted <= Parse(lines).emitted
  {
    RunKeeps(Init, lines);
    SettleKeeps(Run(Init, lines));
  }

  /** Blank lines change nothing: dropping them from the input gives the same state. */
  lemma {:induction false} BlankLinesIgnored(s: ParserState, lines: seq<string>)
    ensures Run(s, lines) == Run(s, NonBlank(lines))
    decreases |lines|
  {
    if lines != [] {
      var init := lines[..|lines| - 1];
      var x := lines[|lines| - 1];
      BlankLinesIgnored(s, init);
      if !AllSpace(x) {
        var nb := NonBlank(init) + [x];
        assert nb[..|nb| - 1] == NonBlank(init);
      }
    }
  }

  /** The body continuation lines produce: the lines joined by line breaks after the
      existing body, or on their own when the body is empty. */
  function FoldedBody(body: string, lines: seq<string>): string {
    JoinLines(if body == [] then lines else [body] + lines)
  }

  /** One more line extends the folded body by `AppendLine`. */
  lemma FoldedBodyAppend(body: string, lines: seq<string>, x: string)
    requires forall i :: 0 <= i < |lines| ==> lines[i] != []
    ensures AppendLine(FoldedBody(body, lines), x) == FoldedBody(body, lines + [x])
  {
    var xs := if body == [] then lines else [body] + lines;
    var ys := if body == [] then lines + [x] else [body] + (lines + [x]);
    assert ys == xs + [x] && ys[..|ys| - 1] == xs;
    if |xs| == 1 {
      assert xs[0] != [];
    }
  }

  /** A non-empty sequence is its prefix followed by its last element. */
  lemma LastSplit<T>(xs: seq<T>)
    requires xs != []
    ensures xs[..|xs| - 1] + [xs[|xs| - 1]] == xs
  {
  }

  lemma StepContinuation(s: ParserState, line: string)
    requires Classify(line) == ContinuationLine
    ensures Step(s, line) == Continue(s, line) && line != []
  {
    assert !AllSpace(line);
  }

  /** Continuation lines fold into the in-flight record's body with line breaks and touch
      nothing else; with no record in flight they are dropped. This covers both plain lines
      and timestamped lines that were not accepted as message starts. */
  lemma {:induction false} ContinuationsFold(s: ParserState, lines: seq<string>)
    requires forall i :: 0 <= i < |lines| ==> Classify(lines[i]) == ContinuationLine
    ensures s.current.None? ==> Run(s, lines) == s
    ensures s.current.Some? ==>
      Run(s, lines) ==
        s.(current := Some(s.current.value.(message := FoldedBody(s.current.value.message, lines))))
    decreases |lines|
  {
    if lines != [] {
      var init := lines[..|lines| - 1];
      var x := lines[|lines| - 1];
      assert forall i :: 0 <= i < |init| ==> Classify(init[i]) == ContinuationLine by {
        forall i | 0 <= i < |init| ensures Classify(init[i]) == ContinuationLine {
          assert init[i] == lines[i];
        }
      }
      ContinuationsFold(s, init);
      var before := Run(s, init);
      assert Run(s, lines) == Step(before, x);
      StepContinuation(before, x);
      if s.current.Some? {
        forall i | 0 <= i < |init| ensures init[i] != [] {
          StepContinuation(s, init[i]);
        }
        var m := s.current.value;
        FoldedBodyAppend(m.message, init, x);
        LastSplit(lines);
        assert Continue(before, x) == s.(current := Some(m.(message := FoldedBody(m.message, lines))));
      }
    }
  }

  /** Every record of `s` that is in flight carries the state's current date and day. */
  predicate InFlightDated(s: ParserState) {
    s.current.Some? ==> s.current.value.date == s.date && s.current.value.day == s.day
  }

  /** No line of `lines` is a date header. */
  predicate NoDateLines(lines: seq<string>) {
    forall i :: 0 <= i < |lines| ==> !Classify(lines[i]).DateLine?
  }

  /** A line that is not a date header keeps the date and the day, and the record in
      flight, if any, keeps them too. */
  lemma ApplyKeepsDate(s: ParserState, kind: LineKind, line: string)
    requires InFlightDated(s) && !kind.DateLine?
    ensures var t := Apply(s, kind, line);
      t.date == s.date && t.day == s.day && InFlightDated(t)
  {
  }

  /** Between date headers the date and day stay put, and every record written or left in
      flight carries them. */
  lemma {:induction false} DatesCarry(s: ParserState, lines: seq<string>)
    requires InFlightDated(s) && NoDateLines(lines)
    ensures var t := Run(s, lines);
      t.date == s.date && t.day == s.day && InFlightDated(t) &&
      |s.emitted| <= |t.emitted| &&
      forall i :: |s.emitted| <= i < |t.emitted| ==>
        t.emitted[i].date == s.date && t.emitted[i].day == s.day
    decreases |lines|
  {
    if lines != [] {
      var init := lines[..|lines| - 1];
      assert NoDateLines(init) by {
        forall i | 0 <= i < |init| ensures !Classify(init[i]).DateLine? {
          assert init[i] == lines[i];
        }
      }
      DatesCarry(s, init);
      var x := lines[|lines| - 1];
      assert !Classify(x).DateLine?;
      var t := Run(s, init);
      var u := Run(s, lines);
      assert u == Apply(t, Classify(x), x);
      ApplyKeepsDate(t, Classify(x), x);
      ApplyEmits(t, Classify(x), x);
      forall i | |s.emitted| <= i < |u.emitted|
        ensures u.emitted[i].date == s.date && u.emitted[i].day == s.day
      {
        if i < |t.emitted| {
          assert u.emitted[i] == t.emitted[i];
        }
      }
    }
  }

  /** The flush keeps the date and the day, and what it writes carries them. */
  lemma SettleDated(s: ParserState, n: nat)
    requires InFlightDated(s) && n <= |s.emitted|
    requires forall i :: n <= i < |s.emitted| ==> s.emitted[i].date == s.date && s.emitted[i].day == s.day
    ensures var t := Settle(s);
      InFlightDated(t) && n <= |t.emitted| &&
      forall i :: n <= i < |t.emitted| ==> t.emitted[i].date == s.date && t.emitted[i].day == s.day
  {
    var t := Settle(s);
    forall i | n <= i < |t.emitted| ensures t.emitted[i].date == s.date && t.emitted[i].day == s.day {
      if i < |s.emitted| {
        assert t.emitted[i] == s.emitted[i];
      }
    }
  }

  /** Date inheritance: after a date header, every record started before the next date
      header takes that header's date and day, up to and including the end-of-input flush. */
  lemma DateInheritance(s: ParserState, header: string, lines: seq<string>)
    requires Classify(header).DateLine? && NoDateLines(lines)
    ensures var h := Step(s, header);
      var t := Settle(Run(h, lines));
      var date, day := Some(Classify(header).date), Some(Classify(header).day);
      t.date == date && t.day == day &&
      |h.emitted| <= |t.emitted| &&
      (forall i :: |h.emitted| <= i < |t.emitted| ==> t.emitted[i].date == date && t.emitted[i].day == day) &&
      (t.current.Some? ==> t.current.value.date == date && t.current.value.day == day)
  {
    var h := Step(s, header);
    assert h == Apply(s, Classify(header), header);
    assert h.current.None?;
    DatesCarry(h, lines);
    SettleDated(Run(h, lines), |h.emitted|);
  }

  /** Finalize-then-start: a start line settles the previous record and opens a new one
      holding the current date and day, the line's own time, and the split of its text. */
  lemma StartOpensRecord(s: ParserState, line: string)
    requires Classify(line).StartLine?
    ensures var t := Step(s, line);
      var split := SplitUserMessage(Classify(line).text);
      t.emitted == Settle(s).emitted && t.excluded == Settle(s).excluded &&
      t.current == Some(Record(s.date, s.day, line[..5], split.user, split.message))
  {
  }

  /** The end-of-input flush leaves the record in its slot: a parser that is fed a second,
      empty transcript writes that record again. A fresh parser per file avoids this. */
  lemma FlushRetainsRecord(s: ParserState)
    requires s.current.Some? && !ShouldExclude(s.current.value)
    ensures Settle(s).current == s.current
    ensures Settle(Run(Settle(s), [])).emitted == s.emitted + [s.current.value, s.current.value]
  {
    var m := s.current.value;
    assert Settle(s).emitted == s.emitted + [m];
    assert s.emitted + [m] + [m] == s.emitted + [m, m];
  }
}
