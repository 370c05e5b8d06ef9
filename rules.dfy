/**
 * The message record and the three per-line decisions of `LineParser` (`main.py`):
 * whether a timestamped line starts a message, how its text splits into sender and body,
 * and whether a finished record is dropped. Each is a pure function of its argument.
 */
module Rules {
  import opened Wrappers
  import opened PyStr

  /** One output record; `date` and `day` are `None` before the first date header. */
  datatype Record = Record(
    date: Option<string>,
    day: Option<string>,
    time: string,
    user: string,
    message: string)

  /** `SYSTEM_ACTIONS`: notices LINE glues straight onto the sender's name
      (unsent a message, added photos to an album, created a note, placed a call, left, joined). */
  const SystemActions: seq<string> := [
    "がメッセージの送信を取り消しました",
    "がアルバムに写真を追加しました",
    "がノートを作成しました",
    "が通話をかけました",
    "が退出しました",
    "が参加しました"
  ]

  /** `NON_USERNAME_KEYWORDS`: words that open body lines rather than sender names
      (curtain up, doors open, end, start, finished, held, cancelled, postponed). */
  const NonUsernameKeywords: seq<string> := [
    "開演",
    "開場",
    "終",
    "開始",
    "終了",
    "開催",
    "中止",
    "延期"
  ]

  /** Every system action is glued to the sender's name by the particle "が", so a text
      without that particle contains none of them. */
  lemma ActionsStartWithParticle()
    ensures |SystemActions| == 6
    ensures forall k :: 0 <= k < |SystemActions| ==> |SystemActions[k]| >= 2 && SystemActions[k][0] == 'が'
  {
  }

  /** No keyword is empty, so none is a prefix of every word; "終" is a prefix of "終了". */
  lemma KeywordsNonEmpty()
    ensures |NonUsernameKeywords| == 8
    ensures forall k :: 0 <= k < |NonUsernameKeywords| ==> NonUsernameKeywords[k] != []
    ensures StartsWith(NonUsernameKeywords[4], NonUsernameKeywords[2])
  {
  }

  /** The body of a record that only stands for an attached picture ("image"). */
  const ImagePlaceholder: string := "画像"

  /** The keyword loop of `_is_valid_message_line`, from the `from`-th keyword on. */
  function StartsWithAnyFrom(word: string, keywords: seq<string>, from: nat): (r: bool)
    requires from <= |keywords|
    ensures r <==> exists k :: from <= k < |keywords| && StartsWith(word, keywords[k])
    decreases |keywords| - from
  {
    if from == |keywords| then false
    else if StartsWith(word, keywords[from]) then true
    else StartsWithAnyFrom(word, keywords, from + 1)
  }

  /** `_is_valid_message_line(text)`: the text after a timestamp starts a new message. */
  function IsValidMessageLine(text: string): (r: bool)
    ensures AllSpace(text) ==> !r
    ensures forall head, tail :: FirstGapSplit(text, head, tail) ==>
      (r <==> forall k :: 0 <= k < |NonUsernameKeywords| ==> !StartsWith(head, NonUsernameKeywords[k]))
  {
    // `text.split()[0]` is the first element of `text.split(None, 1)`.
    var words := SplitOnce(text);
    var firstWord := if words != [] then words[0] else [];
    assert forall head, tail :: FirstGapSplit(text, head, tail) ==> words != [] && head == firstWord by {
      forall head, tail | FirstGapSplit(text, head, tail) ensures words != [] && head == firstWord {
        FirstGapSplitIsSplitOnce(text, head, tail);
      }
    }
    if Strip(text) == [] then
      false
    else
      !StartsWithAnyFrom(firstWord, NonUsernameKeywords, 0)
  }

  /** The body is whitespace, the image placeholder, then whitespace. */
  ghost predicate IsPaddedPlaceholder(body: string) {
    exists i: nat {:trigger OccursAt(body, ImagePlaceholder, i)} ::
      i + |ImagePlaceholder| <= |body| && SpaceBetween(body, 0, i) &&
      OccursAt(body, ImagePlaceholder, i) &&
      SpaceBetween(body, i + |ImagePlaceholder|, |body|)
  }

  /** `_should_exclude_message(m)`: the body is the image placeholder and nothing else but
      whitespace; a body that merely contains the placeholder is kept. */
  function ShouldExclude(m: Record): (r: bool)
    ensures r <==> IsPaddedPlaceholder(m.message)
  {
    var body := m.message;
    assert IsPaddedPlaceholder(body) ==> Strip(body) == ImagePlaceholder by {
      if IsPaddedPlaceholder(body) {
        var i: nat :| i + |ImagePlaceholder| <= |body| && SpaceBetween(body, 0, i) &&
          OccursAt(body, ImagePlaceholder, i) &&
          SpaceBetween(body, i + |ImagePlaceholder|, |body|);
        assert body[i] == ImagePlaceholder[0] && body[i + 1] == ImagePlaceholder[1];
        StripBetween(body, i, i + |ImagePlaceholder|);
      }
    }
    if Strip(body) == ImagePlaceholder then
      assert OccursAt(body, ImagePlaceholder, SkipSpace(body, 0));
      true
    else
      false
  }

  /** The sender and body `_split_user_message` returns. */
  datatype UserMessage = UserMessage(user: string, message: string)

  /** `SystemActions[k]` is the first system action, in list order, that occurs in `text`. */
  ghost predicate IsFirstAction(text: string, k: int) {
    0 <= k < |SystemActions| && Occurs(text, SystemActions[k]) &&
    forall j :: 0 <= j < k ==> !Occurs(text, SystemActions[j])
  }

  /** The system-action loop of `_split_user_message`, from the `from`-th action on. */
  function FirstActionFrom(text: string, from: nat): (r: Option<nat>)
    requires from <= |SystemActions|
    ensures r.Some? ==> from <= r.value < |SystemActions| && Occurs(text, SystemActions[r.value])
    ensures r.Some? ==> forall j :: from <= j < r.value ==> !Occurs(text, SystemActions[j])
    ensures r.None? ==> forall j :: from <= j < |SystemActions| ==> !Occurs(text, SystemActions[j])
    decreases |SystemActions| - from
  {
    if from == |SystemActions| then None
    else if Find(text, SystemActions[from]).Some? then Some(from)
    else FirstActionFrom(text, from + 1)
  }

  /** An occurrence of `pat` at `idx` ends a prefix of `text` made of what precedes it and
      `pat` itself. */
  lemma OccurrenceStarts(text: string, pat: string, idx: nat)
    requires OccursAt(text, pat, idx)
    ensures StartsWith(text, text[..idx] + pat)
  {
    assert text[..idx + |pat|] == text[..idx] + text[idx..idx + |pat|];
  }

  /** `_split_user_message(text)`. A system notice splits at the first occurrence of the
      first action (in list order) the text contains, which becomes the whole body; any
      other text splits at its first whitespace run, as `str.split(None, 1)` does. */
  function SplitUserMessage(text: string): (r: UserMessage)
    ensures forall k :: IsFirstAction(text, k) ==>
      r.message == SystemActions[k] && StartsWith(text, r.user + r.message) &&
      forall i: nat :: i < |r.user| ==> !OccursAt(text, r.message, i)
    ensures (forall k :: 0 <= k < |SystemActions| ==> !Occurs(text, SystemActions[k])) ==>
      if AllSpace(text) then r == UserMessage(text, [])
      else FirstGapSplit(text, r.user, r.message)
  {
    match FirstActionFrom(text, 0)
    case Some(k) =>
      var action := SystemActions[k];
      var idx := Find(text, action).value;
      OccurrenceStarts(text, action, idx);
      UserMessage(text[..idx], action)
    case None =>
      var parts := SplitOnce(text);
      if |parts| == 2 then UserMessage(parts[0], parts[1])
      else if |parts| == 1 then UserMessage(parts[0], [])
      else UserMessage(text, [])
  }
}
