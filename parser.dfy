/**
 * The line-driven state machine of `LineParser.parse_file` (`main.py`). The pure functions
 * `Step`, `Run` and `Parse` say what one line, a run of lines and a whole transcript do to
 * the parser's state; the class `LineParser` is the object itself, whose methods update its
 * fields in place and are proved to do exactly what those functions say.
 */
module Parser {
  import opened Wrappers
  import opened PyStr
  import opened Patterns
  import opened Rules

  /** How `parse_file` treats a line, decided in the source's order: blank, date header,
      timestamped line that starts a message, anything else. */
  datatype LineKind =
    | Blank
    | DateLine(date: string, day: string)
    | StartLine(time: string, text: string)
    | ContinuationLine

  function Classify(line: string): (k: LineKind)
    ensures k.Blank? <==> AllSpace(line)
    ensures k.StartLine? ==> |line| >= 7 && k.time == line[..5] && IsClock(k.time)
  {
    if Strip(line) == [] then
      Blank
    else
      match MatchDate(line)
      case Some(g) => DateLine(g.date, g.day)
      case None =>
        match MatchMessage(line)
        case Some(g) => if IsValidMessageLine(g.text) then StartLine(g.time, g.text) else ContinuationLine
        case None => ContinuationLine
  }

  /** The four fields of a `LineParser` plus the records written to the output so far. */
  datatype ParserState = ParserState(
    date: Option<string>,
    day: Option<string>,
    current: Option<Record>,
    excluded: nat,
    emitted: seq<Record>)

  /** The state `LineParser()` starts in. */
  const Init := ParserState(None, None, None, 0, [])

  /** Records that have been started: written, counted as excluded, or still in flight. */
  function Accounted(s: ParserState): nat {
    |s.emitted| + s.excluded + (if s.current.Some? then 1 else 0)
  }

  /** `if self.current_message: ...`: the in-flight record is written, or counted as
      excluded, and stays in the slot. */
  function Settle(s: ParserState): (t: ParserState)
    ensures t.date == s.date && t.day == s.day && t.current == s.current
    ensures s.current.None? ==> t == s
    ensures s.current.Some? ==> |t.emitted| + t.excluded == |s.emitted| + s.excluded + 1
    ensures s.current.Some? && ShouldExclude(s.current.value) ==> t.emitted == s.emitted
    ensures s.current.Some? && !ShouldExclude(s.current.value) ==>
      t.emitted == s.emitted + [s.current.value]
  {
    match s.current
    case None => s
    case Some(m) =>
      if ShouldExclude(m) then s.(excluded := s.excluded + 1)
      else s.(emitted := s.emitted + [m])
  }

  /** Settling the in-flight record and clearing the slot. */
  function Finalize(s: ParserState): (t: ParserState)
    ensures t.current.None? && t.date == s.date && t.day == s.day
    ensures Accounted(t) == Accounted(s)
  {
    Settle(s).(current := None)
  }

  /** A continuation line extends a body: a line break separates it from a non-empty body
      and an empty body becomes the line itself. */
  function AppendLine(body: string, line: string): string {
    if body != [] then body + "\n" + line else line
  }

  /** A continuation line goes to the in-flight record, or is dropped when there is none. */
  function Continue(s: ParserState, line: string): (t: ParserState)
    ensures t.current.Some? == s.current.Some? && Accounted(t) == Accounted(s)
    ensures s.current.None? ==> t == s
    ensures t.date == s.date && t.day == s.day && t.emitted == s.emitted && t.excluded == s.excluded
    ensures s.current.Some? ==> t.current.value.(message := s.current.value.message) == s.current.value
  {
    match s.current
    case None => s
    case Some(m) => s.(current := Some(m.(message := AppendLine(m.message, line))))
  }

  /** What a line of kind `kind` does to the state. */
  function Apply(s: ParserState, kind: LineKind, line: string): (t: ParserState)
    ensures Accounted(t) == Accounted(s) + (if kind.StartLine? then 1 else 0)
    ensures s.emitted <= t.emitted && s.excluded <= t.excluded
    ensures kind.DateLine? ==>
      t.current.None? && t.date == Some(kind.date) && t.day == Some(kind.day)
    ensures !kind.DateLine? ==> t.date == s.date && t.day == s.day
    ensures kind.StartLine? ==>
      t.current.Some? && t.current.value.time == kind.time &&
      t.current.value.date == s.date && t.current.value.day == s.day
  {
    match kind
    case Blank => s
    case DateLine(date, day) => Finalize(s).(date := Some(date), day := Some(day))
    case StartLine(time, text) =>
      var split := SplitUserMessage(text);
      Settle(s).(current := Some(Record(s.date, s.day, time, split.user, split.message)))
    case ContinuationLine => Continue(s, line)
  }

  /** One iteration of the loop of `parse_file`. */
  function Step(s: ParserState, line: string): ParserState {
    Apply(s, Classify(line), line)
  }

  /** The four branches of the loop body, one lemma each, as `Feed` meets them. */
  lemma StepBlank(s: ParserState, line: string)
    requires Strip(line) == []
    ensures Step(s, line) == s
  {
  }

  lemma StepDate(s: ParserState, line: string, g: DateGroups)
    requires Strip(line) != [] && MatchDate(line) == Some(g)
    ensures Step(s, line) == Finalize(s).(date := Some(g.date), day := Some(g.day))
  {
  }

  lemma StepStart(s: ParserState, line: string, g: MessageGroups)
    requires Strip(line) != [] && MatchDate(line).None? && MatchMessage(line) == Some(g)
    requires IsValidMessageLine(g.text)
    ensures var split := SplitUserMessage(g.text);
      Step(s, line) == Settle(s).(current := Some(Record(s.date, s.day, g.time, split.user, split.message)))
  {
  }

  lemma StepContinue(s: ParserState, line: string)
    requires Strip(line) != [] && MatchDate(line).None?
    requires MatchMessage(line).Some? ==> !IsValidMessageLine(MatchMessage(line).value.text)
    ensures Step(s, line) == Continue(s, line)
  {
  }

  /** The loop of `parse_file` over `lines`, from state `s`. */
  function Run(s: ParserState, lines: seq<string>): ParserState
    decreases |lines|
  {
    if lines == [] then s else Step(Run(s, lines[..|lines| - 1]), lines[|lines| - 1])
  }

  /** `parse_file` on a fresh parser: the loop, then the end-of-input flush. */
  function Parse(lines: seq<string>): ParserState {
    Settle(Run(Init, lines))
  }

  /** A `LineParser` instance; `written` is every record the object has written, over all its
      calls of `parse_file`. Each call truncates its own output file, so for a reused object
      that file holds only the tail of `written` that the last call added. */
  class LineParser {
    var currentDate: Option<string>
    var currentDay: Option<string>
    var currentMessage: Option<Record>
    var excludedCount: nat
    var written: seq<Record>

    function State(): ParserState
      reads this
    {
      ParserState(currentDate, currentDay, currentMessage, excludedCount, written)
    }

    /** `LineParser()` */
    constructor ()
      ensures State() == Init
    {
      currentDate := None;
      currentDay := None;
      currentMessage := None;
      excludedCount := 0;
      written := [];
    }

    /** The block that writes the in-flight record or counts it as excluded. */
    method SettleCurrent()
      modifies this
      ensures State() == Settle(old(State()))
    {
      if currentMessage.Some? {
        if ShouldExclude(currentMessage.value) {
          excludedCount := excludedCount + 1;
        } else {
          written := written + [currentMessage.value];
        }
      }
    }

    /** The block that adds a continuation line to the in-flight record's body. */
    method AppendToCurrent(line: string)
      modifies this
      ensures State() == Continue(old(State()), line)
    {
      if currentMessage.Some? {
        var m := currentMessage.value;
        if m.message != [] {
          currentMessage := Some(m.(message := m.message + "\n" + line));
        } else {
          currentMessage := Some(m.(message := line));
        }
      }
    }

    /** The block that handles a date header: the record in flight is settled and the slot
        cleared, then the date and the day are replaced. */
    method OpenDay(date: string, day: string)
      modifies this
      ensures State() == Finalize(old(State())).(date := Some(date), day := Some(day))
    {
      if currentMessage.Some? {
        SettleCurrent();
        currentMessage := None;
      }
      currentDate := Some(date);
      currentDay := Some(day);
    }

    /** The block that starts a new record from an accepted timestamped line: the record in
        flight is settled, then replaced by one holding the current date and day. */
    method OpenMessage(time: string, text: string)
      modifies this
      ensures var split := SplitUserMessage(text);
        State() == Settle(old(State())).(current := Some(Record(currentDate, currentDay, time, split.user, split.message)))
    {
      SettleCurrent();
      var split := SplitUserMessage(text);
      currentMessage := Some(Record(currentDate, currentDay, time, split.user, split.message));
    }

    /** The body of the `for line in infile` loop of `parse_file`. */
    method Feed(line: string)
      modifies this
      ensures State() == Step(old(State()), line)
    {
      ghost var before := State();
      if Strip(line) == [] {
        StepBlank(before, line);
        return;
      }
      var dateMatch := MatchDate(line);
      if dateMatch.Some? {
        StepDate(before, line, dateMatch.value);
        OpenDay(dateMatch.value.date, dateMatch.value.day);
        return;
      }
      var messageMatch := MatchMessage(line);
      if messageMatch.Some? {
        var time, rest := messageMatch.value.time, messageMatch.value.text;
        if IsValidMessageLine(rest) {
          StepStart(before, line, messageMatch.value);
          OpenMessage(time, rest);
        } else {
          StepContinue(before, line);
          AppendToCurrent(line);
        }
      } else {
        StepContinue(before, line);
        AppendToCurrent(line);
      }
    }

    /** `parse_file`: every line in order, then the in-flight record is flushed. */
    method ParseFile(lines: seq<string>)
      modifies this
      ensures State() == Settle(Run(old(State()), lines))
    {
      ghost var start := State();
      var i := 0;
      while i < |lines|
        invariant 0 <= i <= |lines|
        invariant State() == Run(start, lines[..i])
      {
        assert lines[..i + 1][..i] == lines[..i];
        Feed(lines[i]);
        i := i + 1;
      }
      assert lines[..i] == lines;
      SettleCurrent();
    }
  }
}
