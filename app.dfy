/**
 * The exercise logic of the trainer window, morse_trainer/app.py: reading
 * lesson and exercise ids back from the menu entries, laying out received
 * groups five to a line, and the recognition rounds (how many, which
 * character is asked, how an answer is scored).
 *
 * Widgets are left out. What the handlers read from them (the menu entries,
 * whether the keyboard has a button for a character) is passed in, and the
 * random picks are given as numbers.
 */
module Trainer {
  import opened Optional
  import opened PyStr
  import Morse

  // ------------------------------------------------------------ menu entries

  /** `s.split(':')[0]`: everything before the first colon, or all of `s`. */
  function BeforeColon(s: string): (p: string)
    ensures p <= s && ':' !in p
    ensures |p| < |s| ==> s[|p|] == ':'
  {
    if s == [] || s[0] == ':' then [] else [s[0]] + BeforeColon(s[1..])
  }

  /** `int(s.split(':')[0])`; `None` where that raises. */
  function ParseId(s: string): Option<int> {
    ParseInt(BeforeColon(s))
  }

  /** The menu entry of a lesson or an exercise, `f"{id}: {name}"`. */
  function MenuEntry(id: int, name: string): string {
    IntToString(id) + ": " + name
  }

  /** Every menu entry gives back its own id, whatever the name holds. */
  lemma ParseIdOfMenuEntry(id: int, name: string)
    ensures ParseId(MenuEntry(id, name)) == Some(id)
  {
    var digits := IntToString(id);
    var s := MenuEntry(id, name);
    assert ':' !in digits;
    BeforeColonOfPrefix(digits, ": " + name);
    assert s == digits + (": " + name);
    ParseIntOfIntToString(id);
  }

  /** An entry without a digit, such as the placeholders `"-"` and
      `"Нет уроков"` of an empty course, has no id. */
  lemma NoDigitNoId(s: string)
    requires forall i :: 0 <= i < |s| ==> !IsDigit(s[i])
    ensures ParseId(s) == None
  {
    var t := Strip(BeforeColon(s));
    assert forall i :: 0 <= i < |t| ==> !IsDigit(t[i]);
    if |t| > 0 && (t[0] == '+' || t[0] == '-') {
      assert !IsDigitRun(t[1..]) by { if |t[1..]| > 0 { assert t[1..][0] == t[1]; } }
    } else {
      assert !IsDigitRun(t) by { if |t| > 0 { assert !IsDigit(t[0]); } }
    }
  }

  /** The placeholder entries shown for an empty course have no id. */
  lemma PlaceholderEntries()
    ensures ParseId("-") == None
    ensures ParseId("Нет уроков") == None
  {
    var dash, noLessons := "-", "Нет уроков";
    forall i | 0 <= i < |noLessons| ensures !IsDigit(noLessons[i]) {
      assert noLessons[i] in {'Н', 'е', 'т', ' ', 'у', 'р', 'о', 'к', 'в'};
    }
    NoDigitNoId(dash);
    NoDigitNoId(noLessons);
  }

  lemma {:induction false} BeforeColonOfPrefix(p: string, rest: string)
    requires ':' !in p && rest != [] && rest[0] == ':'
    ensures BeforeColon(p + rest) == p
  {
    if p == [] {
      assert p + rest == rest;
    } else {
      assert (p + rest)[1..] == p[1..] + rest;
      BeforeColonOfPrefix(p[1..], rest);
    }
  }

  // ------------------------------------------------------------ received text layout

  /** `[words[i:i + 5] for i in range(0, len(words), 5)]`. */
  function Chunks(words: seq<string>): (cs: seq<seq<string>>)
    ensures |cs| == (|words| + 4) / 5
  {
    seq((|words| + 4) / 5, k requires 0 <= k < (|words| + 4) / 5 => words[5 * k .. Morse.Min(5 * k + 5, |words|)])
  }

  /** The lines of the received text: each chunk joined by spaces. */
  function Lines(words: seq<string>): (ls: seq<string>)
    ensures |ls| == |Chunks(words)|
  {
    var cs := Chunks(words);
    seq(|cs|, k requires 0 <= k < |cs| => Join(cs[k], " "))
  }

  /** The text shown once a group reception is over: the words of the text,
      five to a line. */
  function FormatOutput(text: string): string {
    Join(Lines(Words(text)), "\n")
  }

  /** The chunks number ceil(n / 5); each holds between one and five words,
      all but the last exactly five, and read in order they are the words. */
  lemma ChunkShape(words: seq<string>)
    ensures var cs := Chunks(words);
      && |cs| * 5 >= |words| > (|cs| - 1) * 5
      && (forall k :: 0 <= k < |cs| ==> 1 <= |cs[k]| <= 5)
      && (forall k :: 0 <= k < |cs| - 1 ==> |cs[k]| == 5)
      && (forall k, j :: 0 <= k < |cs| && 0 <= j < |cs[k]| ==> cs[k][j] == words[5 * k + j])
  {
  }

  /** Past the first five words, the chunks are those of the rest. */
  lemma ChunksCons(words: seq<string>)
    requires words != []
    ensures var n := Morse.Min(5, |words|);
      Chunks(words) == [words[..n]] + Chunks(words[n..])
  {
    var n := Morse.Min(5, |words|);
    var cs, rest := Chunks(words), Chunks(words[n..]);
    assert |cs| == 1 + |rest|;
    forall k | 1 <= k < |cs|
      ensures cs[k] == rest[k - 1]
    {
      assert words[n..][5 * (k - 1) .. Morse.Min(5 * (k - 1) + 5, |words| - n)]
          == words[5 * k .. Morse.Min(5 * k + 5, |words|)];
    }
  }

  lemma {:induction false} FlatLines(words: seq<string>)
    requires forall w :: w in words ==> IsWord(w)
    ensures FlatWords(Lines(words)) == words
    decreases |words|
  {
    if words != [] {
      var n := Morse.Min(5, |words|);
      ChunksCons(words);
      var first, rest := words[..n], words[n..];
      assert Lines(words) == [Join(first, " ")] + Lines(rest);
      assert forall w :: w in first ==> w in words;
      assert forall w :: w in rest ==> w in words;
      WordsOfJoinedWords(first);
      FlatLines(rest);
      assert ([Join(first, " ")] + Lines(rest))[1..] == Lines(rest);
      assert words == first + rest;
    }
  }

  /** Splitting the laid-out text gives back the words of the received text,
      in order. */
  lemma FormatOutputWords(text: string)
    ensures Words(FormatOutput(text)) == Words(text)
  {
    WordsOfJoin(Lines(Words(text)), '\n');
    FlatLines(Words(text));
  }

  // ------------------------------------------------------------ recognition rounds

  predicate IsRecognitionType(exerciseType: string) {
    exerciseType == "single_char_recognition_lesson" || exerciseType == "single_char_recognition_cumulative"
  }

  /** The exercise state of the window: the character pool of the selected
      exercise, the character being asked and the rounds still to go. */
  class App {
    const logic: Morse.MorseLogic
    var charPool: seq<char>
    var currentCorrectChar: Option<char>
    var roundsLeft: int

    /** The character being asked is always one of the pool. */
    predicate Valid()
      reads this
    {
      currentCorrectChar.Some? ==> currentCorrectChar.value in charPool
    }

    constructor (logic: Morse.MorseLogic)
      ensures Valid()
      ensures this.logic == logic && charPool == [] && currentCorrectChar == None && roundsLeft == 0
    {
      this.logic := logic;
      charPool := [];
      currentCorrectChar := None;
      roundsLeft := 0;
    }

    /** A new exercise was selected: both ids are read from the menu entries,
        its description is looked up, and the pool of its type replaces the
        old one, while the round state is reset. An unreadable id, a missing
        description or one without a type changes nothing. */
    method OnExerciseSelected(lessonEntry: string, exerciseEntry: string)
      requires Valid()
      modifies this
      ensures Valid()
      ensures var lessonId, exerciseId := ParseId(lessonEntry), ParseId(exerciseEntry);
        var details := if lessonId.Some? && exerciseId.Some?
                       then logic.ExerciseDetails(lessonId.value, exerciseId.value) else None;
        if details.Some? && "type" in details.value then
          && charPool == Morse.CharacterPool(logic.course, lessonId.value, details.value["type"])
          && currentCorrectChar == None && roundsLeft == 0
        else
          charPool == old(charPool) && currentCorrectChar == old(currentCorrectChar) && roundsLeft == old(roundsLeft)
    {
      var lessonId := ParseId(lessonEntry);
      var exerciseId := ParseId(exerciseEntry);
      if lessonId.None? || exerciseId.None? {
        return;
      }
      var exercise := logic.ExerciseDetails(lessonId.value, exerciseId.value);
      if exercise.None? || "type" !in exercise.value {
        return;
      }
      charPool := logic.GetCharacterPool(lessonId.value, exercise.value["type"]);
      currentCorrectChar := None;
      roundsLeft := 0;
    }

    /** A new lesson was selected: its id is read from the menu entry and its
        first exercise is selected, if it has one. */
    method OnLessonSelected(lessonEntry: string)
      requires Valid()
      modifies this
      ensures Valid()
      ensures ParseId(lessonEntry).None? || logic.ExercisesForLesson(ParseId(lessonEntry).value) == [] ==>
                charPool == old(charPool) && currentCorrectChar == old(currentCorrectChar) && roundsLeft == old(roundsLeft)
      ensures ParseId(lessonEntry).Some? && logic.ExercisesForLesson(ParseId(lessonEntry).value) != [] ==>
                var lessonId := ParseId(lessonEntry).value;
                var details := logic.ExerciseDetails(lessonId, logic.ExercisesForLesson(lessonId)[0].0);
                if details.Some? && "type" in details.value then
                  && charPool == Morse.CharacterPool(logic.course, lessonId, details.value["type"])
                  && currentCorrectChar == None && roundsLeft == 0
                else
                  charPool == old(charPool) && currentCorrectChar == old(currentCorrectChar) && roundsLeft == old(roundsLeft)
    {
      var lessonId := ParseId(lessonEntry);
      if lessonId.None? {
        return;
      }
      var exercises := logic.ExercisesForLesson(lessonId.value);
      if exercises == [] {
        return;
      }
      var (exerciseId, description) := exercises[0];
      ParseIdOfMenuEntry(exerciseId, description);
      OnExerciseSelected(lessonEntry, MenuEntry(exerciseId, description));
    }

    /** Starts a round if rounds are left and the pool is not empty: the
        character `charPool[pick % |charPool|]` is asked and its playback is
        requested, which does nothing while something is playing. */
    method StartRound(pick: nat, stopAt: nat)
      requires Valid()
      modifies this, logic
      ensures Valid()
      ensures charPool == old(charPool) && roundsLeft == old(roundsLeft)
      ensures roundsLeft <= 0 || charPool == [] ==>
                currentCorrectChar == old(currentCorrectChar) && logic.events == old(logic.events)
      ensures roundsLeft > 0 && charPool != [] ==>
                && currentCorrectChar == Some(charPool[pick % |charPool|])
                && currentCorrectChar.value in charPool
                && Played(old(logic.isPlaying), old(logic.events), logic.events, logic.charMap,
                          [currentCorrectChar.value], stopAt)
      ensures LogicKept(old(logic.course), old(logic.exerciseTypes), old(logic.charMap), old(logic.isPlaying))
    {
      if roundsLeft <= 0 {
        return;
      }
      if charPool == [] {
        return;
      }
      var c := charPool[pick % |charPool|];
      currentCorrectChar := Some(c);
      var started := logic.StartPlayback([c], stopAt);
    }

    /** The logic object's course, descriptions, character table and playing
        flag are as given. */
    predicate LogicKept(course: seq<Morse.Lesson>, exerciseTypes: map<string, Morse.ExerciseInfo>,
                        charMap: map<char, Morse.CharInfo>, playing: bool)
      reads logic
    {
      && logic.course == course && logic.exerciseTypes == exerciseTypes && logic.charMap == charMap
      && logic.isPlaying == playing
    }

    /** The exercise type and the two counts the start button works with;
        `None` where the handler returns before using them: an empty pool, an
        unreadable id or count, a missing description or type, or the study
        exercise. */
    function StartSettings(lessonEntry: string, exerciseEntry: string, groupsEntry: string, sizeEntry: string)
      : Option<(string, int, int)>
      reads this, logic
    {
      var exerciseId, lessonId := ParseId(exerciseEntry), ParseId(lessonEntry);
      if charPool == [] || exerciseId.None? || lessonId.None? then None
      else
        var details := logic.ExerciseDetails(lessonId.value, exerciseId.value);
        if details.None? || "type" !in details.value || details.value["type"] == "study" then None
        else
          var numGroups, groupSize := ParseInt(groupsEntry), ParseInt(sizeEntry);
          if numGroups.None? || groupSize.None? then None
          else Some((details.value["type"], numGroups.value, groupSize.value))
    }

    /** The start button. A recognition exercise gets `numGroups * groupSize`
        rounds and starts the first if that is positive; a group reception
        generates its text (whose playback request fails, as it passes a
        completion callback the playback does not take); every other case
        changes nothing. */
    method OnStartClick(lessonEntry: string, exerciseEntry: string, groupsEntry: string, sizeEntry: string,
                        pick: nat, stopAt: nat, draws: nat -> nat)
      returns (generated: Option<string>)
      requires Valid()
      modifies this, logic
      ensures Valid()
      ensures charPool == old(charPool)
      ensures LogicKept(old(logic.course), old(logic.exerciseTypes), old(logic.charMap), old(logic.isPlaying))
      ensures var settings := old(StartSettings(lessonEntry, exerciseEntry, groupsEntry, sizeEntry));
        if settings.Some? && IsRecognitionType(settings.value.0) then
          var rounds := settings.value.1 * settings.value.2;
          && roundsLeft == rounds && generated == None
          && (rounds > 0 ==> currentCorrectChar == Some(charPool[pick % |charPool|])
                             && Played(old(logic.isPlaying), old(logic.events), logic.events, logic.charMap,
                                       [currentCorrectChar.value], stopAt))
          && (rounds <= 0 ==> currentCorrectChar == old(currentCorrectChar) && logic.events == old(logic.events))
        else if settings.Some? && settings.value.0 == "group_reception" then
          && generated == Some(Strip(Morse.Terminated(Morse.ExerciseGroups(charPool, settings.value.1, settings.value.2, draws))))
          && roundsLeft == old(roundsLeft) && currentCorrectChar == old(currentCorrectChar)
          && logic.events == old(logic.events)
        else
          && generated == None
          && roundsLeft == old(roundsLeft) && currentCorrectChar == old(currentCorrectChar)
          && logic.events == old(logic.events)
    {
      generated := None;
      var settings := StartSettings(lessonEntry, exerciseEntry, groupsEntry, sizeEntry);
      if settings.None? {
        return;
      }
      var (exerciseType, numGroups, groupSize) := settings.value;
      if IsRecognitionType(exerciseType) {
        roundsLeft := numGroups * groupSize;
        if roundsLeft > 0 {
          StartRound(pick, stopAt);
        }
      } else if exerciseType == "group_reception" {
        generated := logic.GenerateExerciseText(charPool, numGroups, groupSize, draws);
      }
    }

    /** A click on a character of the recognition keyboard. It counts only for
        a character of the pool, with a character being asked and a button on
        the keyboard. A right answer uses up one round and asks the next
        character, or ends the exercise when none is left; a wrong answer
        changes nothing (its replay request fails like the group reception's). */
    method OnRecognitionClick(c: char, hasButton: bool, pick: nat, stopAt: nat)
      requires Valid()
      modifies this, logic
      ensures Valid()
      ensures charPool == old(charPool)
      ensures LogicKept(old(logic.course), old(logic.exerciseTypes), old(logic.charMap), old(logic.isPlaying))
      ensures c !in charPool || old(currentCorrectChar) != Some(c) || !hasButton ==>
                roundsLeft == old(roundsLeft) && currentCorrectChar == old(currentCorrectChar)
                && logic.events == old(logic.events)
      ensures c in charPool && old(currentCorrectChar) == Some(c) && hasButton ==>
                && roundsLeft == old(roundsLeft) - 1
                && (roundsLeft > 0 ==> currentCorrectChar == Some(charPool[pick % |charPool|])
                                       && Played(old(logic.isPlaying), old(logic.events), logic.events,
                                                 logic.charMap, [currentCorrectChar.value], stopAt))
                && (roundsLeft <= 0 ==> currentCorrectChar == None && logic.events == old(logic.events))
    {
      if c !in charPool {
        return;
      }
      if currentCorrectChar.None? {
        return;
      }
      if !hasButton {
        return;
      }
      if Some(c) == currentCorrectChar {
        roundsLeft := roundsLeft - 1;
        if roundsLeft > 0 {
          StartRound(pick, stopAt);
        } else {
          currentCorrectChar := None;
        }
      }
    }
  }

  /** What a playback request leaves in the log: nothing new while something
      was playing, otherwise the events of `text` up to the stop. */
  predicate Played(wasPlaying: bool, before: seq<Morse.Event>, after: seq<Morse.Event>,
                   charMap: map<char, Morse.CharInfo>, text: string, stopAt: nat)
  {
    if wasPlaying then after == before
    else after == before + Morse.Trace(charMap, text[..Morse.Min(stopAt, |text|)])
  }
}
