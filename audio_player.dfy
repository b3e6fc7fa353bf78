/**
 * The tone player of morse_trainer/audio_player.py: the five Morse durations
 * derived from a words-per-minute speed, the tone frequency, what each play
 * call puts on the audio output, and the click-suppressing envelope of the
 * generated wave.
 *
 * Durations are `real`s, so the 1/3/1/3/7 ratios hold exactly. The output
 * device is an append-only log of segments: a tone of a given length and
 * frequency, or a silence of a given length (a `time.sleep`).
 */
module Audio {

  /** The durations, in seconds, that a speed setting fixes. */
  datatype Timing = Timing(dot: real, dash: real, interElement: real, interChar: real, interWord: real)

  /** What the speed setting computes from a words-per-minute value, following
      the PARIS convention: the word PARIS plus its word gap is 50 dot units,
      so `wpm` such words fill a minute. Dash and the character gap are three
      dot units, the element gap one and the word gap seven. */
  function TimingFor(wpm: int): (t: Timing)
    requires wpm != 0
    ensures 50.0 * (wpm as real) * t.dot == 60.0
    ensures t.dash == 3.0 * t.dot && t.interElement == t.dot
    ensures t.interChar == 3.0 * t.dot && t.interWord == 7.0 * t.dot
  {
    var dot := 1.2 / (wpm as real);
    Timing(dot, 3.0 * dot, dot, 3.0 * dot, 7.0 * dot)
  }

  /** At 20 WPM a dot lasts 60 ms. */
  lemma TimingAt20()
    ensures TimingFor(20) == Timing(0.06, 0.18, 0.06, 0.18, 0.42)
  {
  }

  /** A faster speed makes every one of the five durations strictly shorter. */
  lemma TimingDecreasing(slow: int, fast: int)
    requires 0 < slow < fast
    ensures TimingFor(fast).dot < TimingFor(slow).dot
    ensures TimingFor(fast).dash < TimingFor(slow).dash
    ensures TimingFor(fast).interElement < TimingFor(slow).interElement
    ensures TimingFor(fast).interChar < TimingFor(slow).interChar
    ensures TimingFor(fast).interWord < TimingFor(slow).interWord
  {
    QuotientDecreasing(slow as real, fast as real);
  }

  lemma QuotientDecreasing(s: real, f: real)
    requires 0.0 < s < f
    ensures 1.2 / f < 1.2 / s
  {
    var ds, df := 1.2 / s, 1.2 / f;
    assert ds * s == 1.2 && df * f == 1.2;
    assert ds > 0.0;
    assert ds * (f - s) > 0.0;
    assert (ds - df) * f == ds * (f - s);
  }

  /** One piece of the audio output. */
  datatype Segment =
    | Tone(seconds: real, hz: int)   // a wave written to the output stream
    | Silence(seconds: real)         // a sleep of the playing thread

  /** The three play calls of the player. */
  datatype Call = PlayDot | PlayDash | PlayCharPause

  /** What a play call puts on the output under a timing and a tone. */
  function Render(call: Call, t: Timing, hz: int): seq<Segment> {
    match call
    case PlayDot => [Tone(t.dot, hz), Silence(t.interElement)]
    case PlayDash => [Tone(t.dash, hz), Silence(t.interElement)]
    case PlayCharPause => [Silence(t.interChar - t.interElement)]
  }

  /** Once the speed is set, a character pause is two dot units of silence, and
      the silence after the last element of a character (its element gap plus
      the character pause) adds up to the character gap of three dot units. */
  lemma CharPauseLength(wpm: int, hz: int, last: Call)
    requires wpm != 0 && last != PlayCharPause
    ensures Render(PlayCharPause, TimingFor(wpm), hz) == [Silence(2.0 * TimingFor(wpm).dot)]
    ensures Render(last, TimingFor(wpm), hz)[1].seconds + Render(PlayCharPause, TimingFor(wpm), hz)[0].seconds
            == TimingFor(wpm).interChar
  {
  }

  // ------------------------------------------------------------------ envelope

  /** Python's `int(x)` on a float: truncation toward zero. */
  function Trunc(x: real): (r: int)
    ensures x >= 0.0 ==> r as real <= x < r as real + 1.0
    ensures x < 0.0 ==> r as real - 1.0 < x <= r as real
  {
    if x >= 0.0 then x.Floor else -((-x).Floor)
  }

  /** The length of each ramp of the envelope, in samples. */
  function AttackDecaySamples(sampleRate: int, attackDecayMs: int): int {
    Trunc(sampleRate as real * (attackDecayMs as real / 1000.0))
  }

  /** The number of samples of a wave of the given duration. */
  function SampleCount(sampleRate: int, duration: real): int {
    Trunc(sampleRate as real * duration)
  }

  /** The envelope gate: ramps are applied only when the wave is strictly
      longer than the two ramps together. */
  predicate EnvelopeApplies(samples: int, ramp: int) {
    samples > 2 * ramp
  }

  /** At 44100 Hz a 5 ms ramp is 220 samples. */
  lemma RampAt44100()
    ensures AttackDecaySamples(44100, 5) == 220
  {
  }

  /** At 44100 Hz with 5 ms ramps, a dot is shaped exactly at speeds of at most
      120 WPM; faster dots are too short and are played unshaped. */
  lemma DotShapedUpTo120(wpm: int)
    requires wpm > 0
    ensures EnvelopeApplies(SampleCount(44100, TimingFor(wpm).dot), AttackDecaySamples(44100, 5))
            <==> wpm <= 120
  {
    RampAt44100();
    var w := wpm as real;
    var x := 44100.0 * TimingFor(wpm).dot;
    assert x * w == 52920.0;
    var n := SampleCount(44100, TimingFor(wpm).dot);
    assert n == x.Floor;
    if wpm <= 120 {
      assert x * w >= 441.0 * w;
      assert x >= 441.0;
    } else {
      assert x * w < 441.0 * w;
      assert x < 441.0;
    }
  }

  /** `numpy.linspace(start, stop, num)[i]`. */
  function Ramp(start: real, stop: real, num: nat, i: nat): real
    requires i < num
  {
    if num == 1 then start else start + (i as real) * (stop - start) / ((num - 1) as real)
  }

  /** The factor the envelope multiplies sample `i` of an `n`-sample wave by. */
  function Gain(n: nat, ramp: nat, i: nat): real
    requires n > 2 * ramp && i < n
  {
    if i < ramp then Ramp(0.0, 1.0, ramp, i)
    else if n - ramp <= i then Ramp(1.0, 0.0, ramp, i - (n - ramp))
    else 1.0
  }

  /** The wave after the envelope: the fade-in over the first `ramp` samples,
      the fade-out over the last `ramp` samples. */
  function Enveloped(s: seq<real>, ramp: nat): (r: seq<real>)
    requires |s| > 2 * ramp
    ensures |r| == |s|
  {
    seq(|s|, i requires 0 <= i < |s| => s[i] * Gain(|s|, ramp, i))
  }

  /** Every factor of the envelope lies between 0 and 1. */
  lemma GainBounds(n: nat, ramp: nat, i: nat)
    requires n > 2 * ramp && i < n
    ensures 0.0 <= Gain(n, ramp, i) <= 1.0
  {
    if i < ramp {
      RampWithinUnit(ramp, i);
    } else if n - ramp <= i {
      RampWithinUnit(ramp, i - (n - ramp));
    }
  }

  /** Both ramps of the envelope stay between 0 and 1. */
  lemma RampWithinUnit(num: nat, i: nat)
    requires i < num
    ensures 0.0 <= Ramp(0.0, 1.0, num, i) <= 1.0
    ensures 0.0 <= Ramp(1.0, 0.0, num, i) <= 1.0
  {
    if num > 1 {
      var d := (num - 1) as real;
      var q := (i as real) / d;
      assert q * d == i as real;
      assert (q - 1.0) * d <= 0.0;
      assert (i as real) * (1.0 - 0.0) / d == q;
      assert (i as real) * (0.0 - 1.0) / d == -q;
    }
  }

  /** The envelope silences the first and the last sample when each ramp is at
      least two samples long, and leaves every sample between the ramps alone. */
  lemma EnvelopeShape(s: seq<real>, ramp: nat)
    requires |s| > 2 * ramp
    ensures ramp >= 2 ==> Enveloped(s, ramp)[0] == 0.0 && Enveloped(s, ramp)[|s| - 1] == 0.0
    ensures forall i :: ramp <= i < |s| - ramp ==> Enveloped(s, ramp)[i] == s[i]
  {
    if ramp >= 2 {
      var n := |s|;
      assert Gain(n, ramp, n - 1) == 1.0 + ((ramp - 1) as real) * (0.0 - 1.0) / ((ramp - 1) as real);
    }
  }

  // ------------------------------------------------------------------ the player

  /** The player object: its sample rate, tone, ramp length, the five durations
      and the log of everything written to or slept on the output. */
  class Player {
    var sampleRate: int
    var tone: int
    var attackDecayMs: int
    var dotDuration: real
    var dashDuration: real
    var interElementPause: real
    var interCharPause: real
    var interWordPause: real
    var output: seq<Segment>

    /** The five durations as one value. */
    function Durations(): Timing
      reads this
    {
      Timing(dotDuration, dashDuration, interElementPause, interCharPause, interWordPause)
    }

    /** Opens the output (not modelled), sets speed and tone, 5 ms ramps. A
        zero speed makes the speed setting raise, so no player is built. */
    constructor (wpm: int, tone: int, sampleRate: int)
      requires wpm != 0
      ensures this.sampleRate == sampleRate && this.tone == tone && attackDecayMs == 5
      ensures Durations() == TimingFor(wpm) && output == []
    {
      this.sampleRate := sampleRate;
      var dot := 1.2 / (wpm as real);
      dotDuration := dot;
      dashDuration := 3.0 * dot;
      interElementPause := dot;
      interCharPause := 3.0 * dot;
      interWordPause := 7.0 * dot;
      this.tone := tone;
      attackDecayMs := 5;
      output := [];
    }

    /** Recomputes all five durations from `wpm` in one call. A zero speed is a
        division by zero: it raises before any field is written (`ok` false). */
    method SetWpm(wpm: int) returns (ok: bool)
      modifies this
      ensures ok <==> wpm != 0
      ensures ok ==> Durations() == TimingFor(wpm)
      ensures !ok ==> Durations() == old(Durations())
      ensures tone == old(tone) && output == old(output)
      ensures sampleRate == old(sampleRate) && attackDecayMs == old(attackDecayMs)
    {
      if wpm == 0 {
        return false;
      }
      dotDuration := 1.2 / (wpm as real);
      dashDuration := 3.0 * dotDuration;
      interElementPause := dotDuration;
      interCharPause := 3.0 * dotDuration;
      interWordPause := 7.0 * dotDuration;
      ok := true;
    }

    /** Stores the tone frequency as given; no duration changes. */
    method SetTone(tone: int)
      modifies this`tone
      ensures this.tone == tone
    {
      this.tone := tone;
    }

    /** A dot tone followed by one element gap of silence. */
    method PlayDot()
      modifies this`output
      ensures output == old(output) + Render(Call.PlayDot, Durations(), tone)
      ensures output == old(output) + [Tone(dotDuration, tone), Silence(interElementPause)]
    {
      output := output + [Tone(dotDuration, tone)];
      output := output + [Silence(interElementPause)];
    }

    /** A dash tone followed by one element gap of silence. */
    method PlayDash()
      modifies this`output
      ensures output == old(output) + Render(Call.PlayDash, Durations(), tone)
      ensures output == old(output) + [Tone(dashDuration, tone), Silence(interElementPause)]
    {
      output := output + [Tone(dashDuration, tone)];
      output := output + [Silence(interElementPause)];
    }

    /** The rest of a character gap: the element gap already slept is subtracted. */
    method PlayCharPause()
      modifies this`output
      ensures output == old(output) + Render(Call.PlayCharPause, Durations(), tone)
      ensures output == old(output) + [Silence(interCharPause - interElementPause)]
    {
      output := output + [Silence(interCharPause - interElementPause)];
    }

    /** The envelope step of wave generation, in place on the generated samples
        (their sine values are not modelled). The gate decides; when it passes
        with ramps of no samples, the slice `wave[-0:]` is the whole wave and
        the multiplication by an empty ramp raises (`ok` false, wave untouched). */
    method ApplyEnvelope(wave: array<real>) returns (ok: bool)
      modifies wave
      ensures ok <==> !EnvelopeApplies(wave.Length, AttackDecaySamples(sampleRate, attackDecayMs))
                      || AttackDecaySamples(sampleRate, attackDecayMs) > 0
      ensures ok && EnvelopeApplies(wave.Length, AttackDecaySamples(sampleRate, attackDecayMs))
              ==> wave[..] == Enveloped(old(wave[..]), AttackDecaySamples(sampleRate, attackDecayMs))
      ensures !ok || !EnvelopeApplies(wave.Length, AttackDecaySamples(sampleRate, attackDecayMs))
              ==> wave[..] == old(wave[..])
    {
      var ramp := AttackDecaySamples(sampleRate, attackDecayMs);
      if wave.Length <= 2 * ramp {
        return true;
      }
      if ramp <= 0 {
        return false;
      }
      ShapeInPlace(wave, ramp);
      ok := true;
    }
  }

  /** Multiplies the first `ramp` samples by the rising ramp and the last `ramp`
      samples by the falling one, as the two slice updates do. */
  method ShapeInPlace(wave: array<real>, ramp: nat)
    requires 0 < ramp && 2 * ramp < wave.Length
    modifies wave
    ensures wave[..] == Enveloped(old(wave[..]), ramp)
  {
    ghost var orig := wave[..];
    FadeIn(wave, ramp);
    ghost var mid := wave[..];
    FadeOut(wave, ramp);
    FadesCompose(orig, mid, wave[..], ramp);
  }

  /** The fade-in followed by the fade-out is the envelope. */
  lemma FadesCompose(orig: seq<real>, mid: seq<real>, fin: seq<real>, ramp: nat)
    requires 0 < ramp && 2 * ramp < |orig| && |mid| == |orig| && |fin| == |orig|
    requires forall k :: 0 <= k < ramp ==> mid[k] == orig[k] * Ramp(0.0, 1.0, ramp, k)
    requires forall k :: ramp <= k < |orig| ==> mid[k] == orig[k]
    requires forall k :: 0 <= k < |orig| - ramp ==> fin[k] == mid[k]
    requires forall k :: |orig| - ramp <= k < |orig| ==>
               fin[k] == mid[k] * Ramp(1.0, 0.0, ramp, k - (|orig| - ramp))
    ensures fin == Enveloped(orig, ramp)
  {
    var n := |orig|;
    var e := Enveloped(orig, ramp);
    forall k | 0 <= k < n
      ensures fin[k] == e[k]
    {
      assert e[k] == orig[k] * Gain(n, ramp, k);
      if k < ramp {
        assert fin[k] == mid[k];
      } else if k < n - ramp {
        assert fin[k] == mid[k];
      } else {
        assert mid[k] == orig[k];
      }
    }
  }

  /** `wave[:ramp] *= linspace(0, 1, ramp)`. */
  method FadeIn(wave: array<real>, ramp: nat)
    requires ramp <= wave.Length
    modifies wave
    ensures forall k :: 0 <= k < ramp ==> wave[k] == old(wave[k]) * Ramp(0.0, 1.0, ramp, k)
    ensures forall k :: ramp <= k < wave.Length ==> wave[k] == old(wave[k])
  {
    var i := 0;
    while i < ramp
      invariant 0 <= i <= ramp
      invariant forall k :: 0 <= k < i ==> wave[k] == old(wave[k]) * Ramp(0.0, 1.0, ramp, k)
      invariant forall k :: i <= k < wave.Length ==> wave[k] == old(wave[k])
    {
      wave[i] := wave[i] * Ramp(0.0, 1.0, ramp, i);
      i := i + 1;
    }
  }

  /** `wave[-ramp:] *= linspace(1, 0, ramp)` for a positive `ramp`. */
  method FadeOut(wave: array<real>, ramp: nat)
    requires 0 < ramp <= wave.Length
    modifies wave
    ensures forall k :: 0 <= k < wave.Length - ramp ==> wave[k] == old(wave[k])
    ensures forall k :: wave.Length - ramp <= k < wave.Length ==>
              wave[k] == old(wave[k]) * Ramp(1.0, 0.0, ramp, k - (wave.Length - ramp))
  {
    var start := wave.Length - ramp;
    var j := start;
    while j < wave.Length
      invariant start <= j <= wave.Length
      invariant forall k :: 0 <= k < start ==> wave[k] == old(wave[k])
      invariant forall k :: start <= k < j ==> wave[k] == old(wave[k]) * Ramp(1.0, 0.0, ramp, k - start)
      invariant forall k :: j <= k < wave.Length ==> wave[k] == old(wave[k])
    {
      wave[j] := wave[j] * Ramp(1.0, 0.0, ramp, j - start);
      j := j + 1;
    }
  }
}
