/**
 * The lesson and playback logic of morse_trainer/morse_logic.py.
 *
 * Playback is modelled as the ordered log of what the playing thread issues:
 * the player's dot, dash and character-pause calls and the loop's own short
 * sleep after every non-space character. The thread runs sequentially here;
 * a stop request from the interface is the index of the character at whose
 * boundary it arrives.
 */
module Morse {
  import opened Optional
  import opened PyStr
  import Audio

  /** One thing the playback loop issues, in order. */
  datatype Event =
    | Dot        // play_dot()
    | Dash       // play_dash()
    | CharPause  // play_char_pause()
    | Delay      // time.sleep(0.1) of the loop itself

  /** An entry of the character table: the code (a string of symbols) and its
      memory aid; a key missing from the entry is `None`. */
  datatype CharInfo = CharInfo(code: Option<string>, mnemonic: Option<string>)

  /** A lesson of the course; a missing list of new characters or of exercise
      ids is the empty list. */
  datatype Lesson = Lesson(lessonId: int, name: string, newChars: seq<char>, exerciseIds: seq<int>)

  /** An exercise description: a JSON object with string values ("type",
      "description", ...). */
  type ExerciseInfo = map<string, string>

  function Min(a: int, b: int): int {
    if a < b then a else b
  }

  function Max0(x: int): nat {
    if x > 0 then x else 0
  }

  // ------------------------------------------------------------ character table

  /** The character table built from its three parts, each updating the one
      before: signs override digits, which override the alphabet. */
  function MergeTables(alphabet: map<char, CharInfo>, digits: map<char, CharInfo>, signs: map<char, CharInfo>)
    : (m: map<char, CharInfo>)
    ensures m.Keys == alphabet.Keys + digits.Keys + signs.Keys
    ensures forall c :: c in signs ==> m[c] == signs[c]
    ensures forall c :: c in digits && c !in signs ==> m[c] == digits[c]
    ensures forall c :: c in alphabet && c !in digits && c !in signs ==> m[c] == alphabet[c]
  {
    alphabet + digits + signs
  }

  /** `c.upper()` for the Latin and Russian alphabets; every other character is
      its own upper case here. */
  function Upper(c: char): char {
    if 'a' <= c <= 'z' then (c as int - 32) as char
    else if '\U{430}' <= c <= '\U{44f}' then (c as int - 32) as char  // а..я
    else if c == '\U{451}' then '\U{401}'                              // ё
    else c
  }

  /** Upper-casing twice is upper-casing once, and only a space is a space. */
  lemma UpperIdempotent(c: char)
    ensures Upper(Upper(c)) == Upper(c)
    ensures Upper(c) == ' ' <==> c == ' '
  {
  }

  /** `char_map.get(c, {}).get('code')` as a string, with a missing entry, a
      missing code and an empty code all read as the empty string: the loop
      treats the three alike. */
  function CodeOf(m: map<char, CharInfo>, c: char): (code: string)
    ensures code != [] <==> c in m && m[c].code.Some? && m[c].code.value != []
  {
    if c in m && m[c].code.Some? then m[c].code.value else []
  }

  // ------------------------------------------------------------ the event trace

  /** What one code symbol plays: `.` a dot, `-` a dash, anything else nothing. */
  function SymbolEvent(s: char): seq<Event> {
    if s == '.' then [Dot] else if s == '-' then [Dash] else []
  }

  /** The tones of a code, in code order. */
  function SymbolEvents(code: string): (es: seq<Event>)
    ensures |es| <= |code|
  {
    if code == [] then []
    else SymbolEvents(code[..|code| - 1]) + SymbolEvent(code[|code| - 1])
  }

  /** What the loop issues for one character. A space gets a character pause
      and nothing else (the loop continues before its sleep); any other
      character is upper-cased and looked up, a non-empty code plays its tones
      and a character pause, and the sleep follows whether or not the
      character was known. */
  function CharEvents(m: map<char, CharInfo>, c: char): seq<Event> {
    if c == ' ' then [CharPause]
    else
      var code := CodeOf(m, Upper(c));
      (if code != [] then SymbolEvents(code) + [CharPause] else []) + [Delay]
  }

  /** What the loop issues for a whole text played to the end. */
  function Trace(m: map<char, CharInfo>, text: string): seq<Event> {
    if text == [] then []
    else Trace(m, text[..|text| - 1]) + CharEvents(m, text[|text| - 1])
  }

  /** The code's tones come in code order, one per `.` or `-`, and every other
      symbol of the code plays nothing. */
  lemma {:induction false} SymbolEventsAppend(a: string, b: string)
    ensures SymbolEvents(a + b) == SymbolEvents(a) + SymbolEvents(b)
    decreases |b|
  {
    if b == [] {
      assert a + b == a;
    } else {
      var init := b[..|b| - 1];
      var x := b[|b| - 1];
      assert (a + b)[..|a + b| - 1] == a + init;
      assert (a + b)[|a + b| - 1] == x;
      SymbolEventsAppend(a, init);
      calc {
        SymbolEvents(a + b);
        SymbolEvents(a + init) + SymbolEvent(x);
        (SymbolEvents(a) + SymbolEvents(init)) + SymbolEvent(x);
        { AppendAssoc(SymbolEvents(a), SymbolEvents(init), SymbolEvent(x)); }
        SymbolEvents(a) + (SymbolEvents(init) + SymbolEvent(x));
        SymbolEvents(a) + SymbolEvents(b);
      }
    }
  }

  /** A code plays nothing but dots and dashes. */
  lemma {:induction false} SymbolEventsTones(code: string)
    ensures forall e :: e in SymbolEvents(code) ==> e == Dot || e == Dash
  {
    if code != [] {
      SymbolEventsTones(code[..|code| - 1]);
    }
  }

  /** A code plays one dot per `.` and one dash per `-`. */
  lemma {:induction false} SymbolEventsCounts(code: string)
    ensures multiset(SymbolEvents(code))[Dot] == multiset(code)['.']
    ensures multiset(SymbolEvents(code))[Dash] == multiset(code)['-']
  {
    if code != [] {
      SymbolEventsCounts(code[..|code| - 1]);
      SymbolCounts(code);
    }
  }

  /** The last symbol of a code adds one dot for a `.`, one dash for a `-`,
      and nothing otherwise. */
  lemma SymbolCounts(code: string)
    requires code != []
    ensures var init, x := code[..|code| - 1], code[|code| - 1];
      && multiset(SymbolEvents(code))[Dot] == multiset(SymbolEvents(init))[Dot] + (if x == '.' then 1 else 0)
      && multiset(SymbolEvents(code))[Dash] == multiset(SymbolEvents(init))[Dash] + (if x == '-' then 1 else 0)
      && multiset(code)['.'] == multiset(init)['.'] + (if x == '.' then 1 else 0)
      && multiset(code)['-'] == multiset(init)['-'] + (if x == '-' then 1 else 0)
  {
    var init, x := code[..|code| - 1], code[|code| - 1];
    assert multiset(code) == multiset(init) + multiset([x]) by {
      assert code == init + [x];
    }
    var es, tail := SymbolEvents(init), SymbolEvent(x);
    assert multiset(SymbolEvents(code)) == multiset(es) + multiset(tail) by {
      assert SymbolEvents(code) == es + tail;
    }
  }

  /** A code made only of `.` and `-` plays exactly one tone per symbol, a dot
      for `.` and a dash for `-`, in code order. */
  lemma {:induction false} SymbolEventsOfCleanCode(code: string)
    requires forall i :: 0 <= i < |code| ==> code[i] == '.' || code[i] == '-'
    ensures |SymbolEvents(code)| == |code|
    ensures forall i :: 0 <= i < |code| ==> SymbolEvents(code)[i] == (if code[i] == '.' then Dot else Dash)
  {
    if code != [] {
      SymbolEventsOfCleanCode(code[..|code| - 1]);
    }
  }

  /** Symbols other than `.` and `-` are dropped wherever they stand. */
  lemma OtherSymbolsSilent(a: string, x: char, b: string)
    requires x != '.' && x != '-'
    ensures SymbolEvents(a + [x] + b) == SymbolEvents(a + b)
  {
    assert SymbolEvents([x]) == [] by {
      assert [x][..0] == [];
    }
    SymbolEventsAppend(a + [x], b);
    SymbolEventsAppend(a, [x]);
    SymbolEventsAppend(a, b);
    assert SymbolEvents(a + [x]) == SymbolEvents(a);
  }

  /** A known character: its tones, then exactly one character pause, then the
      loop's sleep. */
  lemma KnownCharEvents(m: map<char, CharInfo>, c: char)
    requires c != ' ' && CodeOf(m, Upper(c)) != []
    ensures CharEvents(m, c) == SymbolEvents(CodeOf(m, Upper(c))) + [CharPause, Delay]
    ensures multiset(CharEvents(m, c))[CharPause] == 1 && multiset(CharEvents(m, c))[Delay] == 1
  {
    var es := SymbolEvents(CodeOf(m, Upper(c)));
    SymbolEventsTones(CodeOf(m, Upper(c)));
    assert CharPause !in es && Delay !in es;
    assert multiset(es)[CharPause] == 0 && multiset(es)[Delay] == 0;
  }

  /** A space: one character pause, no tone, no sleep. */
  lemma SpaceEvents(m: map<char, CharInfo>)
    ensures CharEvents(m, ' ') == [CharPause]
  {
  }

  /** An unknown character, or one whose code is missing or empty, plays
      nothing and costs only the sleep. */
  lemma UnknownCharEvents(m: map<char, CharInfo>, c: char)
    requires c != ' '
    requires Upper(c) !in m || m[Upper(c)].code.None? || m[Upper(c)].code == Some([])
    ensures CharEvents(m, c) == [Delay]
  {
  }

  /** Lookup goes through the upper case, so a letter and its capital play the
      same. */
  lemma CaseInsensitive(m: map<char, CharInfo>, c: char)
    ensures CharEvents(m, c) == CharEvents(m, Upper(c))
  {
    UpperIdempotent(c);
  }

  lemma TraceSnoc(m: map<char, CharInfo>, text: string, i: nat)
    requires i < |text|
    ensures Trace(m, text[..i + 1]) == Trace(m, text[..i]) + CharEvents(m, text[i])
  {
    assert text[..i + 1][..i] == text[..i];
  }

  /** Playing a text is playing its parts one after the other. */
  lemma {:induction false} TraceAppend(m: map<char, CharInfo>, a: string, b: string)
    ensures Trace(m, a + b) == Trace(m, a) + Trace(m, b)
    decreases |b|
  {
    if b == [] {
      assert a + b == a;
    } else {
      var init, c := b[..|b| - 1], b[|b| - 1];
      assert (a + b)[..|a + b| - 1] == a + init;
      assert (a + b)[|a + b| - 1] == c;
      TraceAppend(m, a, init);
      calc {
        Trace(m, a + b);
        Trace(m, a + init) + CharEvents(m, c);
        (Trace(m, a) + Trace(m, init)) + CharEvents(m, c);
        { AppendAssoc(Trace(m, a), Trace(m, init), CharEvents(m, c)); }
        Trace(m, a) + (Trace(m, init) + CharEvents(m, c));
        Trace(m, a) + Trace(m, b);
      }
    }
  }

  /** A playback stopped at a character boundary issued exactly the events of
      the full playback up to that character, and the events it did not issue
      are those of the remaining characters. */
  lemma StoppedTraceIsPrefix(m: map<char, CharInfo>, text: string, k: nat)
    requires k <= |text|
    ensures Trace(m, text) == Trace(m, text[..k]) + Trace(m, text[k..])
  {
    assert text == text[..k] + text[k..];
    TraceAppend(m, text[..k], text[k..]);
  }

  /** "SOS" with S = `...` and O = `---`: three dots, three dashes, three dots,
      each letter closed by one character pause and one sleep; lower case
      plays the same. */
  lemma SosTrace(m: map<char, CharInfo>)
    requires 'S' in m && m['S'].code == Some("...")
    requires 'O' in m && m['O'].code == Some("---")
    ensures Trace(m, "SOS") == [Dot, Dot, Dot, CharPause, Delay, Dash, Dash, Dash, CharPause, Delay,
                               Dot, Dot, Dot, CharPause, Delay]
    ensures Trace(m, "sos") == Trace(m, "SOS")
  {
    var s, o := [Dot, Dot, Dot, CharPause, Delay], [Dash, Dash, Dash, CharPause, Delay];
    SosLetters(m);
    ThreeChars(m, 'S', 'O', 'S');
    ThreeChars(m, 's', 'o', 's');
    assert ['S', 'O', 'S'] == "SOS" && ['s', 'o', 's'] == "sos";
  }

  lemma SosLetters(m: map<char, CharInfo>)
    requires 'S' in m && m['S'].code == Some("...")
    requires 'O' in m && m['O'].code == Some("---")
    ensures CharEvents(m, 'S') == CharEvents(m, 's') == [Dot, Dot, Dot, CharPause, Delay]
    ensures CharEvents(m, 'O') == CharEvents(m, 'o') == [Dash, Dash, Dash, CharPause, Delay]
  {
    assert SymbolEvents("...") == [Dot, Dot, Dot] by {
      assert "..."[..2] == ".." && ".."[..1] == "." && "."[..0] == "";
    }
    assert SymbolEvents("---") == [Dash, Dash, Dash] by {
      assert "---"[..2] == "--" && "--"[..1] == "-" && "-"[..0] == "";
    }
    assert Upper('s') == 'S' && Upper('o') == 'O' && Upper('S') == 'S' && Upper('O') == 'O';
  }

  lemma ThreeChars(m: map<char, CharInfo>, x: char, y: char, z: char)
    ensures Trace(m, [x, y, z]) == CharEvents(m, x) + CharEvents(m, y) + CharEvents(m, z)
  {
    assert [x][..0] == [];
    assert Trace(m, [x]) == CharEvents(m, x);
    assert [x, y][..1] == [x];
    assert Trace(m, [x, y]) == CharEvents(m, x) + CharEvents(m, y);
    assert [x, y, z][..2] == [x, y];
  }

  // ------------------------------------------------------------ timing of a trace

  /** What a trace sounds like on a player with the given durations and tone. */
  function Timeline(es: seq<Event>, t: Audio.Timing, hz: int): seq<Audio.Segment> {
    if es == [] then []
    else
      var first := match es[0]
        case Dot => Audio.Render(Audio.Call.PlayDot, t, hz)
        case Dash => Audio.Render(Audio.Call.PlayDash, t, hz)
        case CharPause => Audio.Render(Audio.Call.PlayCharPause, t, hz)
        case Delay => [Audio.Silence(0.1)];
      first + Timeline(es[1..], t, hz)
  }

  /** The total length of a sequence of segments, in seconds. */
  function Duration(segs: seq<Audio.Segment>): real {
    if segs == [] then 0.0 else segs[0].seconds + Duration(segs[1..])
  }

  lemma {:induction false} DurationAppend(a: seq<Audio.Segment>, b: seq<Audio.Segment>)
    ensures Duration(a + b) == Duration(a) + Duration(b)
  {
    if a == [] {
      assert a + b == b;
    } else {
      assert (a + b)[0] == a[0];
      assert (a + b)[1..] == a[1..] + b;
      DurationAppend(a[1..], b);
    }
  }

  lemma {:induction false} TimelineAppend(a: seq<Event>, b: seq<Event>, t: Audio.Timing, hz: int)
    ensures Timeline(a + b, t, hz) == Timeline(a, t, hz) + Timeline(b, t, hz)
  {
    if a == [] {
      assert a + b == b;
    } else {
      assert (a + b)[0] == a[0];
      assert (a + b)[1..] == a[1..] + b;
      TimelineAppend(a[1..], b, t, hz);
    }
  }

  /** Durations in the 1/3/1/3 proportions the speed setting fixes. */
  predicate Proportional(t: Audio.Timing) {
    t.dash == 3.0 * t.dot && t.interElement == t.dot && t.interChar == 3.0 * t.dot
  }

  /** Dot units of one event: a dot is its tone and an element gap, a dash
      three units of tone and an element gap, a character pause two units of
      silence; the sleep is counted apart. */
  function EventUnits(e: Event): nat {
    match e
    case Dot => 2
    case Dash => 4
    case CharPause => 2
    case Delay => 0
  }

  /** `n` times `d`, as repeated addition. */
  function Times(n: nat, d: real): real {
    if n == 0 then 0.0 else d + Times(n - 1, d)
  }

  lemma {:induction false} TimesAdd(k: nat, u: nat, d: real)
    ensures Times(k + u, d) == Times(k, d) + Times(u, d)
  {
    if k > 0 {
      TimesAdd(k - 1, u, d);
    }
  }

  lemma EventDuration(e: Event, t: Audio.Timing, hz: int)
    requires Proportional(t)
    ensures Duration(Timeline([e], t, hz)) == Times(EventUnits(e), t.dot) + (if e == Delay then 0.1 else 0.0)
  {
    var segs := Timeline([e], t, hz);
    var d := t.dot;
    assert Times(2, d) == d + d by {
      assert Times(0, d) == 0.0;
      assert Times(1, d) == d + Times(0, d);
    }
    assert Timeline([e][1..], t, hz) == [] by {
      assert [e][1..] == [];
    }
    match e
    case Dot =>
      assert segs == Audio.Render(Audio.Call.PlayDot, t, hz) + Timeline([e][1..], t, hz);
      assert segs == [Audio.Tone(t.dot, hz), Audio.Silence(t.interElement)];
      DurationPair(segs);
    case Dash =>
      assert segs == Audio.Render(Audio.Call.PlayDash, t, hz) + Timeline([e][1..], t, hz);
      assert segs == [Audio.Tone(t.dash, hz), Audio.Silence(t.interElement)];
      DurationPair(segs);
      assert Times(4, d) == d + d + d + d by {
        assert Times(3, d) == d + Times(2, d);
      }
    case CharPause =>
      assert segs == Audio.Render(Audio.Call.PlayCharPause, t, hz) + Timeline([e][1..], t, hz);
      assert segs == [Audio.Silence(t.interChar - t.interElement)];
      DurationSingle(segs);
    case Delay =>
      assert segs == [Audio.Silence(0.1)] + Timeline([e][1..], t, hz);
      assert segs == [Audio.Silence(0.1)];
      DurationSingle(segs);
      assert Times(0, d) == 0.0;
  }

  lemma DurationSingle(segs: seq<Audio.Segment>)
    requires |segs| == 1
    ensures Duration(segs) == segs[0].seconds
  {
    assert segs[1..] == [];
  }

  lemma DurationPair(segs: seq<Audio.Segment>)
    requires |segs| == 2
    ensures Duration(segs) == segs[0].seconds + segs[1].seconds
  {
    DurationSingle(segs[1..]);
  }

  /** Dot units of a trace. */
  function Units(es: seq<Event>): nat {
    if es == [] then 0 else EventUnits(es[0]) + Units(es[1..])
  }

  /** Sleeps in a trace. */
  function Delays(es: seq<Event>): nat {
    if es == [] then 0 else (if es[0] == Delay then 1 else 0) + Delays(es[1..])
  }

  /** The length of a trace in seconds on a player with proportional
      durations: its dot units times the dot length, plus 0.1 s per sleep. */
  lemma {:induction false} TraceDuration(es: seq<Event>, t: Audio.Timing, hz: int)
    requires Proportional(t)
    ensures Duration(Timeline(es, t, hz)) == Times(Units(es), t.dot) + 0.1 * (Delays(es) as real)
  {
    if es != [] {
      var e, rest := es[0], es[1..];
      TraceDuration(rest, t, hz);
      TimelineCons(es, t, hz);
      EventDuration(e, t, hz);
      TimesAdd(EventUnits(e), Units(rest), t.dot);
    }
  }

  lemma TimelineCons(es: seq<Event>, t: Audio.Timing, hz: int)
    requires es != []
    ensures Duration(Timeline(es, t, hz)) == Duration(Timeline([es[0]], t, hz)) + Duration(Timeline(es[1..], t, hz))
  {
    assert es == [es[0]] + es[1..];
    TimelineAppend([es[0]], es[1..], t, hz);
    DurationAppend(Timeline([es[0]], t, hz), Timeline(es[1..], t, hz));
  }

  /** Every dot is two dot units (tone and element gap), every dash four and
      every character pause two. */
  lemma {:induction false} UnitsCount(es: seq<Event>)
    ensures Units(es) == 2 * multiset(es)[Dot] + 4 * multiset(es)[Dash] + 2 * multiset(es)[CharPause]
    ensures Delays(es) == multiset(es)[Delay]
  {
    if es != [] {
      UnitsCount(es[1..]);
      assert es == [es[0]] + es[1..];
      assert multiset(es) == multiset{es[0]} + multiset(es[1..]);
    }
  }

  lemma UnitsAppend(a: seq<Event>, b: seq<Event>)
    ensures Units(a + b) == Units(a) + Units(b) && Delays(a + b) == Delays(a) + Delays(b)
  {
    UnitsCount(a);
    UnitsCount(b);
    UnitsCount(a + b);
    assert multiset(a + b) == multiset(a) + multiset(b);
  }

  /** A known character costs two dot units per `.` and four per `-` of its
      code, two more for its character pause, and one sleep. */
  lemma KnownCharUnits(m: map<char, CharInfo>, c: char)
    requires c != ' ' && CodeOf(m, Upper(c)) != []
    ensures var code := CodeOf(m, Upper(c));
      && Units(CharEvents(m, c)) == 2 * multiset(code)['.'] + 4 * multiset(code)['-'] + 2
      && Delays(CharEvents(m, c)) == 1
  {
    var code := CodeOf(m, Upper(c));
    var es := SymbolEvents(code);
    KnownCharEvents(m, c);
    SymbolEventsCounts(code);
    UnitsCount(CharEvents(m, c));
    assert multiset(CharEvents(m, c)) == multiset(es) + multiset{CharPause, Delay};
  }

  /** Dot units and sleeps of a text, one character at a time. */
  lemma TraceUnitsSnoc(m: map<char, CharInfo>, text: string, c: char)
    ensures Units(Trace(m, text + [c])) == Units(Trace(m, text)) + Units(CharEvents(m, c))
    ensures Delays(Trace(m, text + [c])) == Delays(Trace(m, text)) + Delays(CharEvents(m, c))
  {
    assert (text + [c])[..|text|] == text;
    UnitsAppend(Trace(m, text), CharEvents(m, c));
  }

  /** With the standard codes of P, A, R, I and S, the word "PARIS " as
      played lasts 48 dot units and five sleeps of 0.1 s: the space adds only
      a character pause, so a word is two units short of the fifty the speed
      setting assumes, and every character adds a sleep. */
  lemma ParisWord(m: map<char, CharInfo>, t: Audio.Timing, hz: int)
    requires 'P' in m && m['P'].code == Some(".--.")
    requires 'A' in m && m['A'].code == Some(".-")
    requires 'R' in m && m['R'].code == Some(".-.")
    requires 'I' in m && m['I'].code == Some("..")
    requires 'S' in m && m['S'].code == Some("...")
    requires Proportional(t)
    ensures Units(Trace(m, "PARIS ")) == 48 && Delays(Trace(m, "PARIS ")) == 5
    ensures Duration(Timeline(Trace(m, "PARIS "), t, hz)) == Times(48, t.dot) + 0.5
  {
    ParisUnits(m);
    TraceDuration(Trace(m, "PARIS "), t, hz);
  }

  lemma ParisUnits(m: map<char, CharInfo>)
    requires 'P' in m && m['P'].code == Some(".--.")
    requires 'A' in m && m['A'].code == Some(".-")
    requires 'R' in m && m['R'].code == Some(".-.")
    requires 'I' in m && m['I'].code == Some("..")
    requires 'S' in m && m['S'].code == Some("...")
    ensures Units(Trace(m, "PARIS ")) == 48 && Delays(Trace(m, "PARIS ")) == 5
  {
    LettersPAR(m);
    LettersIS(m);
    ThreeCharUnits(m, 'P', 'A', 'R');
    ThreeCharUnits(m, 'I', 'S', ' ');
    assert ['P', 'A', 'R'] + ['I', 'S', ' '] == "PARIS ";
    TraceAppend(m, ['P', 'A', 'R'], ['I', 'S', ' ']);
    UnitsAppend(Trace(m, ['P', 'A', 'R']), Trace(m, ['I', 'S', ' ']));
  }

  /** Dot units and sleeps of three characters add up. */
  lemma ThreeCharUnits(m: map<char, CharInfo>, x: char, y: char, z: char)
    ensures Units(Trace(m, [x, y, z])) == Units(CharEvents(m, x)) + Units(CharEvents(m, y)) + Units(CharEvents(m, z))
    ensures Delays(Trace(m, [x, y, z])) == Delays(CharEvents(m, x)) + Delays(CharEvents(m, y)) + Delays(CharEvents(m, z))
  {
    ThreeChars(m, x, y, z);
    UnitsAppend(CharEvents(m, x), CharEvents(m, y));
    UnitsAppend(CharEvents(m, x) + CharEvents(m, y), CharEvents(m, z));
  }

  lemma LettersPAR(m: map<char, CharInfo>)
    requires 'P' in m && m['P'].code == Some(".--.")
    requires 'A' in m && m['A'].code == Some(".-")
    requires 'R' in m && m['R'].code == Some(".-.")
    ensures Units(CharEvents(m, 'P')) == 14 && Units(CharEvents(m, 'A')) == 8 && Units(CharEvents(m, 'R')) == 10
    ensures Delays(CharEvents(m, 'P')) == Delays(CharEvents(m, 'A')) == Delays(CharEvents(m, 'R')) == 1
  {
    assert multiset(".--.")['.'] == 2 && multiset(".--.")['-'] == 2;
    LetterUnits(m, 'P', 2, 2);
    assert multiset(".-")['.'] == 1 && multiset(".-")['-'] == 1;
    LetterUnits(m, 'A', 1, 1);
    assert multiset(".-.")['.'] == 2 && multiset(".-.")['-'] == 1;
    LetterUnits(m, 'R', 2, 1);
  }

  lemma LettersIS(m: map<char, CharInfo>)
    requires 'I' in m && m['I'].code == Some("..")
    requires 'S' in m && m['S'].code == Some("...")
    ensures Units(CharEvents(m, 'I')) == 6 && Units(CharEvents(m, 'S')) == 8 && Units(CharEvents(m, ' ')) == 2
    ensures Delays(CharEvents(m, 'I')) == Delays(CharEvents(m, 'S')) == 1 && Delays(CharEvents(m, ' ')) == 0
  {
    assert multiset("..")['.'] == 2 && multiset("..")['-'] == 0;
    LetterUnits(m, 'I', 2, 0);
    assert multiset("...")['.'] == 3 && multiset("...")['-'] == 0;
    LetterUnits(m, 'S', 3, 0);
    assert CharEvents(m, ' ') == [CharPause];
    assert [CharPause][1..] == [];
  }

  /** A capital letter whose code has the given numbers of dots and dashes. */
  lemma LetterUnits(m: map<char, CharInfo>, c: char, dots: nat, dashes: nat)
    requires 'A' <= c <= 'Z' && c in m && m[c].code.Some?
    requires multiset(m[c].code.value)['.'] == dots && multiset(m[c].code.value)['-'] == dashes
    requires dots + dashes > 0
    ensures Units(CharEvents(m, c)) == 2 * dots + 4 * dashes + 2 && Delays(CharEvents(m, c)) == 1
  {
    assert Upper(c) == c;
    assert m[c].code.value != [];
    KnownCharUnits(m, c);
  }

  // ------------------------------------------------------------ lessons

  /** The index of the first lesson with the given id, as the loops over the
      course find it. */
  function FindLesson(course: seq<Lesson>, lessonId: int): (r: Option<nat>)
    ensures r.None? ==> forall i :: 0 <= i < |course| ==> course[i].lessonId != lessonId
    ensures r.Some? ==> r.value < |course| && course[r.value].lessonId == lessonId
                        && forall i :: 0 <= i < r.value ==> course[i].lessonId != lessonId
  {
    if course == [] then None
    else if course[0].lessonId == lessonId then Some(0)
    else match FindLesson(course[1..], lessonId)
      case None => None
      case Some(i) => Some(i + 1)
  }

  const DefaultDescription: string := "Неизвестное упр."

  /** The description of an exercise id, looked up under its decimal string;
      a missing exercise or a missing description gives the default. */
  function Description(types: map<string, ExerciseInfo>, exerciseId: int): string {
    var key := IntToString(exerciseId);
    if key in types && "description" in types[key] then types[key]["description"] else DefaultDescription
  }

  /** The characters of every lesson whose id is at most `lessonId`, in course
      order, duplicates kept. */
  function Cumulative(course: seq<Lesson>, lessonId: int): seq<char> {
    if course == [] then []
    else
      var last := course[|course| - 1];
      Cumulative(course[..|course| - 1], lessonId) + (if last.lessonId <= lessonId then last.newChars else [])
  }

  /** `list(dict.fromkeys(s))`: the first occurrence of each element, in order. */
  function Dedup(s: seq<char>): (r: seq<char>)
    ensures forall x :: x in r <==> x in s
    ensures Distinct(r)
  {
    if s == [] then []
    else
      var init := s[..|s| - 1];
      var p := Dedup(init);
      if s[|s| - 1] in init then p else p + [s[|s| - 1]]
  }

  predicate Distinct(s: seq<char>) {
    forall i, j :: 0 <= i < j < |s| ==> s[i] != s[j]
  }

  /** Where `x` first occurs in `s`. */
  function FirstIndex(s: seq<char>, x: char): (i: nat)
    requires x in s
    ensures i < |s| && s[i] == x && forall k :: 0 <= k < i ==> s[k] != x
  {
    if s[0] == x then 0 else 1 + FirstIndex(s[1..], x)
  }

  /** The de-duplicated sequence keeps first occurrences in their order. */
  lemma {:induction false} DedupOrder(s: seq<char>)
    ensures forall i, j :: 0 <= i < j < |Dedup(s)| ==> FirstIndex(s, Dedup(s)[i]) < FirstIndex(s, Dedup(s)[j])
  {
    if s != [] {
      var init := s[..|s| - 1];
      var p := Dedup(init);
      DedupOrder(init);
      forall x | x in init
        ensures FirstIndex(s, x) == FirstIndex(init, x)
      {
        var a, b := FirstIndex(s, x), FirstIndex(init, x);
        assert s[b] == x;
        assert init[a] == x;
      }
      var r := Dedup(s);
      forall i, j | 0 <= i < j < |r|
        ensures FirstIndex(s, r[i]) < FirstIndex(s, r[j])
      {
        assert r[i] == p[i] && r[i] in init;
        if j < |p| {
          assert r[j] == p[j] && r[j] in init;
        } else {
          assert r[j] == s[|s| - 1] && r[j] !in init;
          assert FirstIndex(s, r[j]) == |s| - 1;
        }
      }
    }
  }

  /** A character is in the cumulative list exactly when some lesson up to
      the given id introduces it. */
  lemma {:induction false} CumulativeMembers(course: seq<Lesson>, lessonId: int, c: char)
    ensures c in Cumulative(course, lessonId)
            <==> exists i :: 0 <= i < |course| && course[i].lessonId <= lessonId && c in course[i].newChars
  {
    if course != [] {
      var init := course[..|course| - 1];
      CumulativeMembers(init, lessonId, c);
      if c in Cumulative(course, lessonId) && c !in Cumulative(init, lessonId) {
        assert course[|course| - 1].lessonId <= lessonId && c in course[|course| - 1].newChars;
      }
      if exists i :: 0 <= i < |course| && course[i].lessonId <= lessonId && c in course[i].newChars {
        var i :| 0 <= i < |course| && course[i].lessonId <= lessonId && c in course[i].newChars;
        if i < |course| - 1 {
          assert init[i] == course[i];
        }
      }
    }
  }

  predicate IsSingleLessonType(exerciseType: string) {
    exerciseType == "study" || exerciseType == "single_char_recognition_lesson"
  }

  predicate IsCumulativeType(exerciseType: string) {
    exerciseType == "single_char_recognition_cumulative" || exerciseType == "group_reception"
  }

  /** The characters an exercise of the given type in the given lesson draws on. */
  function CharacterPool(course: seq<Lesson>, lessonId: int, exerciseType: string): seq<char> {
    if IsSingleLessonType(exerciseType) then
      match FindLesson(course, lessonId)
      case Some(i) => course[i].newChars
      case None => []
    else if IsCumulativeType(exerciseType) then Dedup(Cumulative(course, lessonId))
    else []
  }

  /** A cumulative pool holds each character of the lessons up to the given
      id once, in the order of first appearance in the course. */
  lemma CumulativePool(course: seq<Lesson>, lessonId: int, exerciseType: string)
    requires IsCumulativeType(exerciseType)
    ensures var pool := CharacterPool(course, lessonId, exerciseType);
      && Distinct(pool)
      && (forall c :: c in pool <==>
            exists i :: 0 <= i < |course| && course[i].lessonId <= lessonId && c in course[i].newChars)
      && (forall i, j :: 0 <= i < j < |pool| ==>
            FirstIndex(Cumulative(course, lessonId), pool[i]) < FirstIndex(Cumulative(course, lessonId), pool[j]))
  {
    var pool := CharacterPool(course, lessonId, exerciseType);
    forall c
      ensures c in pool <==>
        exists i :: 0 <= i < |course| && course[i].lessonId <= lessonId && c in course[i].newChars
    {
      CumulativeMembers(course, lessonId, c);
    }
    DedupOrder(Cumulative(course, lessonId));
  }

  // ------------------------------------------------------------ exercise text

  /** `random.choices(chars, k=k)` with the random draws given: draw number
      `first + j` picks `chars[draws(first + j) % |chars|]`. */
  function Choices(chars: seq<char>, k: int, draws: nat -> nat, first: nat): (g: string)
    requires |chars| > 0 || k <= 0
    ensures |g| == Max0(k)
    ensures forall c :: c in g ==> c in chars
  {
    seq(Max0(k), j requires 0 <= j < Max0(k) => chars[draws(first + j) % |chars|])
  }

  /** The groups of an exercise text, each drawn in turn. */
  function ExerciseGroups(chars: seq<char>, numGroups: int, groupSize: int, draws: nat -> nat): (gs: seq<string>)
    requires |chars| > 0 || numGroups <= 0 || groupSize <= 0
    ensures |gs| == Max0(numGroups)
  {
    seq(Max0(numGroups), g requires 0 <= g < Max0(numGroups) => Choices(chars, groupSize, draws, g * Max0(groupSize)))
  }

  /** The groups, each followed by one space, as the loop accumulates them. */
  function Terminated(gs: seq<string>): string {
    if gs == [] then "" else Terminated(gs[..|gs| - 1]) + gs[|gs| - 1] + " "
  }

  lemma {:induction false} JoinSnoc(ws: seq<string>, w: string, sep: string)
    requires ws != []
    ensures Join(ws + [w], sep) == Join(ws, sep) + sep + w
  {
    if |ws| > 1 {
      assert (ws + [w])[1..] == ws[1..] + [w];
      JoinSnoc(ws[1..], w, sep);
    }
  }

  lemma {:induction false} TerminatedIsJoin(gs: seq<string>)
    requires gs != []
    ensures Terminated(gs) == Join(gs, " ") + " "
  {
    var init := gs[..|gs| - 1];
    if init != [] {
      TerminatedIsJoin(init);
      JoinSnoc(init, gs[|gs| - 1], " ");
      assert init + [gs[|gs| - 1]] == gs;
    }
  }

  /** With whitespace-free characters and positive sizes, the text is the
      groups joined by single spaces, and splitting it gives the groups back. */
  lemma ExerciseTextShape(chars: seq<char>, numGroups: int, groupSize: int, draws: nat -> nat)
    requires |chars| > 0 && NoSpace(chars) && numGroups >= 1 && groupSize >= 1
    ensures var gs := ExerciseGroups(chars, numGroups, groupSize, draws);
      && Strip(Terminated(gs)) == Join(gs, " ")
      && Words(Join(gs, " ")) == gs
  {
    var gs := ExerciseGroups(chars, numGroups, groupSize, draws);
    forall w | w in gs
      ensures IsWord(w)
    {
      forall i | 0 <= i < |w|
        ensures !IsSpace(w[i])
      {
        assert w[i] in w;
        var k :| 0 <= k < |chars| && chars[k] == w[i];
      }
    }
    TerminatedIsJoin(gs);
    JoinedWordsEnds(gs);
    StripTrailingSpace(Join(gs, " "));
    WordsOfJoinedWords(gs);
  }

  lemma AppendAssoc(a: seq<Event>, b: seq<Event>, c: seq<Event>)
    ensures (a + b) + c == a + (b + c)
  {
  }

  // ------------------------------------------------------------ the logic object

  /** The logic object: the course, the exercise descriptions, the merged
      character table, the playing flag and the log of issued events. */
  class MorseLogic {
    var course: seq<Lesson>
    var exerciseTypes: map<string, ExerciseInfo>
    var charMap: map<char, CharInfo>
    var isPlaying: bool
    var events: seq<Event>

    /** Takes the course and the exercise descriptions as given and merges the
        three character tables in place, later parts overriding earlier ones. */
    constructor (alphabet: map<char, CharInfo>, digits: map<char, CharInfo>, signs: map<char, CharInfo>,
                 course: seq<Lesson>, exerciseTypes: map<string, ExerciseInfo>)
      ensures this.course == course && this.exerciseTypes == exerciseTypes
      ensures charMap == MergeTables(alphabet, digits, signs)
      ensures !isPlaying && events == []
    {
      this.course := course;
      charMap := map[];
      this.exerciseTypes := exerciseTypes;
      new;
      charMap := charMap + alphabet;
      assert charMap == alphabet;
      charMap := charMap + digits;
      charMap := charMap + signs;
      isPlaying := false;
      events := [];
    }

    /** (id, name) of every lesson, in course order. */
    function LessonsInfo(): (r: seq<(int, string)>)
      reads this
      ensures |r| == |course|
      ensures forall i :: 0 <= i < |r| ==> r[i] == (course[i].lessonId, course[i].name)
    {
      seq(|course|, i requires 0 <= i < |course| reads this => (course[i].lessonId, course[i].name))
    }

    /** (id, description) of every exercise of the first lesson with the given
        id; nothing for an unknown lesson. */
    function ExercisesForLesson(lessonId: int): (r: seq<(int, string)>)
      reads this
      ensures FindLesson(course, lessonId).None? ==> r == []
      ensures FindLesson(course, lessonId).Some? ==>
                var ids := course[FindLesson(course, lessonId).value].exerciseIds;
                && |r| == |ids|
                && forall j :: 0 <= j < |r| ==> r[j] == (ids[j], Description(exerciseTypes, ids[j]))
    {
      match FindLesson(course, lessonId)
      case None => []
      case Some(i) =>
        var ids := course[i].exerciseIds;
        seq(|ids|, j requires 0 <= j < |ids| reads this => (ids[j], Description(exerciseTypes, ids[j])))
    }

    /** The description object of an exercise id (the lesson id plays no part);
        `None` when it is missing or empty. */
    function ExerciseDetails(lessonId: int, exerciseId: int): (r: Option<ExerciseInfo>)
      reads this
      ensures r.Some? <==> IntToString(exerciseId) in exerciseTypes && exerciseTypes[IntToString(exerciseId)] != map[]
      ensures r.Some? ==> r.value == exerciseTypes[IntToString(exerciseId)]
    {
      var key := IntToString(exerciseId);
      if key in exerciseTypes && exerciseTypes[key] != map[] then Some(exerciseTypes[key]) else None
    }

    /** The characters an exercise draws on: the new characters of the first
        matching lesson for single-lesson types, the de-duplicated characters
        of all lessons up to this one for cumulative types, none otherwise. */
    method GetCharacterPool(lessonId: int, exerciseType: string) returns (pool: seq<char>)
      ensures pool == CharacterPool(course, lessonId, exerciseType)
    {
      if IsSingleLessonType(exerciseType) {
        var i := 0;
        while i < |course|
          invariant 0 <= i <= |course|
          invariant forall k :: 0 <= k < i ==> course[k].lessonId != lessonId
        {
          if course[i].lessonId == lessonId {
            return course[i].newChars;
          }
          i := i + 1;
        }
        return [];
      } else if IsCumulativeType(exerciseType) {
        var cumulative := [];
        var i := 0;
        while i < |course|
          invariant 0 <= i <= |course|
          invariant cumulative == Cumulative(course[..i], lessonId)
        {
          assert course[..i + 1][..i] == course[..i];
          if course[i].lessonId <= lessonId {
            cumulative := cumulative + course[i].newChars;
          }
          i := i + 1;
        }
        assert course[..|course|] == course;
        return Dedup(cumulative);
      }
      return [];
    }

    /** Builds `numGroups` groups of `groupSize` random characters, each
        followed by a space, and strips the result. Drawing from an empty
        pool fails (`None`), as `random.choices` raises on it. */
    method GenerateExerciseText(chars: seq<char>, numGroups: int, groupSize: int, draws: nat -> nat)
      returns (r: Option<string>)
      ensures r.None? <==> |chars| == 0 && numGroups >= 1 && groupSize >= 1
      ensures r.Some? ==> r.value == Strip(Terminated(ExerciseGroups(chars, numGroups, groupSize, draws)))
      ensures r.Some? && NoSpace(chars) && numGroups >= 1 && groupSize >= 1 ==>
                var text := r.value;
                && Words(text) == ExerciseGroups(chars, numGroups, groupSize, draws)
                && |Words(text)| == numGroups
                && (forall w :: w in Words(text) ==> |w| == groupSize && forall c :: c in w ==> c in chars)
                && text == Join(Words(text), " ")
    {
      if |chars| == 0 && numGroups >= 1 && groupSize >= 1 {
        return None;
      }
      ghost var gs := ExerciseGroups(chars, numGroups, groupSize, draws);
      var text := "";
      var i := 0;
      while i < numGroups
        invariant 0 <= i <= Max0(numGroups)
        invariant text == Terminated(gs[..i])
      {
        var group := Choices(chars, groupSize, draws, i * Max0(groupSize));
        assert gs[..i + 1] == gs[..i] + [group];
        text := text + group + " ";
        i := i + 1;
      }
      assert gs[..i] == gs;
      text := Strip(text);
      if NoSpace(chars) && numGroups >= 1 && groupSize >= 1 {
        ExerciseTextShape(chars, numGroups, groupSize, draws);
      }
      return Some(text);
    }

    /** The playing thread: raises the flag, plays the text character by
        character, checking the flag before each one, and lowers the flag at
        the end. A stop request arrives at the boundary before character
        `stopAt` (never, when `stopAt` is at least the text's length). */
    method PlayMorse(text: string, stopAt: nat)
      modifies this
      ensures !isPlaying
      ensures events == old(events) + Trace(charMap, text[..Min(stopAt, |text|)])
      ensures course == old(course) && exerciseTypes == old(exerciseTypes) && charMap == old(charMap)
    {
      isPlaying := true;
      var m := charMap;
      ghost var start := events;
      ghost var played: string := [];
      var i := 0;
      while i < |text|
        invariant 0 <= i <= |text| && i <= stopAt
        invariant isPlaying
        invariant course == old(course) && exerciseTypes == old(exerciseTypes) && charMap == m == old(charMap)
        invariant played == text[..i]
        invariant events == start + Trace(m, played)
      {
        if i == stopAt {
          StopPlayback();
        }
        if !isPlaying {
          break;
        }
        PlayNext(played, text[i], start);
        played := played + [text[i]];
        i := i + 1;
      }
      assert Min(stopAt, |text|) == i;
      isPlaying := false;
    }

    /** The loop of the playing thread past the text `played`: one more
        character `c` extends the log to the trace of `played + [c]`. */
    method PlayNext(ghost played: string, c: char, ghost start: seq<Event>)
      requires events == start + Trace(charMap, played)
      modifies this`events
      ensures events == start + Trace(charMap, played + [c])
    {
      ghost var before, next := Trace(charMap, played), CharEvents(charMap, c);
      assert Trace(charMap, played + [c]) == before + next by {
        assert (played + [c])[..|played|] == played;
      }
      PlayChar(c);
      assert events == start + (before + next) by {
        assert events == (start + before) + next;
        AppendAssoc(start, before, next);
      }
    }

    /** One iteration of the playing thread's loop, for the character `c`. */
    method PlayChar(c: char)
      modifies this`events
      ensures events == old(events) + CharEvents(charMap, c)
    {
      if c == ' ' {
        events := events + [CharPause];
        return;
      }
      var code := CodeOf(charMap, Upper(c));
      if code != [] {
        PlayCode(code);
        events := events + [CharPause];
      }
      events := events + [Delay];
    }

    /** The inner loop of the playing thread: the tones of one code. */
    method PlayCode(code: string)
      modifies this`events
      ensures events == old(events) + SymbolEvents(code)
    {
      var j := 0;
      while j < |code|
        invariant 0 <= j <= |code|
        invariant events == old(events) + SymbolEvents(code[..j])
      {
        assert code[..j + 1][..j] == code[..j];
        if code[j] == '.' {
          events := events + [Dot];
        } else if code[j] == '-' {
          events := events + [Dash];
        }
        j := j + 1;
      }
      assert code[..j] == code;
    }

    /** Starts playing unless something is playing already, in which case
        nothing happens. */
    method StartPlayback(text: string, stopAt: nat) returns (started: bool)
      modifies this
      ensures started <==> !old(isPlaying)
      ensures isPlaying == old(isPlaying)
      ensures !started ==> isPlaying && events == old(events)
      ensures started ==> !isPlaying && events == old(events) + Trace(charMap, text[..Min(stopAt, |text|)])
      ensures course == old(course) && exerciseTypes == old(exerciseTypes) && charMap == old(charMap)
    {
      if isPlaying {
        return false;
      }
      PlayMorse(text, stopAt);
      started := true;
    }

    /** Lowers the flag; nothing else changes, so a second stop changes nothing. */
    method StopPlayback()
      modifies this`isPlaying
      ensures !isPlaying
    {
      isPlaying := false;
    }
  }
}
