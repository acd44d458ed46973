/**
 * The intro cutscene's typewriter (src/scenes/cutscene.cpp): the current
 * dialogue line is revealed one character every CHAR_TIME_MS, and every
 * DIALOGUE_TIME_MS the line restarts from its first character. The phase is
 * never advanced, so the line is always the first one, and the reveal
 * keeps appending to the text already shown (the clearing of the text is
 * commented out in the source).
 *
 * The line assignment on cutscene.cpp:99 lacks its semicolon; the model
 * takes the assignment as intended. The static char_timer is a field here.
 */
module IntroScene {
  const CHAR_TIME_MS: real := 75.0
  const DIALOGUE_TIME_MS: real := 5000.0
  const PHASE0_TIME: real := 20000.0 / 3.0

  const DIALOG_PARTS: seq<string> := [
    "A long time ago in an Island Far Far Away...",
    "A village of bunnies lived in peace.",
    "Their island, a paradise under the moonlit night.",
    "But peace never lasts...",
    "A bunch of cows and chickens came in boats.",
    "Together, they banded and invaded the bunnies!",
    "One by one, the bunnies were taken.",
    "They were caged and left to await a terrible fate...",
    "All left alone.",
    "The bunnies yearn for freedom.",
    "But one bunny escaped.",
    "One bunny refuses to give up.",
    "Armed with only a raft and a dream...",
    "The great rescue begins."
  ]

  /** The typewriter's state: the text shown, the line being revealed, the next character's index and the character timer. */
  datatype Typewriter = Typewriter(rendered: string, line: string, index: nat, timerMs: real)

  /** revealCharacters: with characters left, the timer grows by dt and, once it reaches CHAR_TIME_MS, the next character is shown and the timer restarts. */
  function Reveal(t: Typewriter, dt: real): Typewriter
  {
    if t.index < |t.line| then
      if t.timerMs + dt >= CHAR_TIME_MS then Typewriter(t.rendered + [t.line[t.index]], t.line, t.index + 1, 0.0)
      else t.(timerMs := t.timerMs + dt)
    else t
  }

  /**
   * A reveal keeps the index within the line, reveals at most one
   * character, exactly the one at the old index, and only once the timer
   * with dt reaches CHAR_TIME_MS; the line never changes and the text only
   * grows.
   */
  lemma RevealOneCharacter(t: Typewriter, dt: real)
    requires t.index <= |t.line|
    ensures var r := Reveal(t, dt);
            r.line == t.line && r.index <= |r.line| && (r.index == t.index || r.index == t.index + 1)
    ensures var r := Reveal(t, dt);
            r.index == t.index + 1 <==> t.index < |t.line| && t.timerMs + dt >= CHAR_TIME_MS
    ensures var r := Reveal(t, dt);
            r.rendered == t.rendered + t.line[t.index..r.index]
    ensures var r := Reveal(t, dt);
            r.index == t.index + 1 ==> r.timerMs == 0.0
  {
    var r := Reveal(t, dt);
    if r.index == t.index + 1 {
      assert t.line[t.index..r.index] == [t.line[t.index]];
    }
  }

  function RevealRun(t: Typewriter, dts: seq<real>): Typewriter
    decreases |dts|
  {
    if dts == [] then t else RevealRun(Reveal(t, dts[0]), dts[1..])
  }

  /** Over any run of frames the text shown is the old text followed by the next characters of the line, in order. */
  lemma {:induction false} RevealRunTypesTheLine(t: Typewriter, dts: seq<real>)
    requires t.index <= |t.line|
    decreases |dts|
    ensures var r := RevealRun(t, dts);
            r.line == t.line && t.index <= r.index <= |r.line| && r.index <= t.index + |dts| &&
            r.rendered == t.rendered + t.line[t.index..r.index]
  {
    if dts != [] {
      var m := Reveal(t, dts[0]);
      RevealOneCharacter(t, dts[0]);
      RevealRunTypesTheLine(m, dts[1..]);
      var r := RevealRun(m, dts[1..]);
      assert t.line[t.index..r.index] == t.line[t.index..m.index] + t.line[m.index..r.index];
    }
  }

  /** What is shown is the text from before the reveal started followed by the line's characters from start up to the index. */
  ghost predicate Shows(t: Typewriter, before: string, start: nat)
  {
    start <= t.index <= |t.line| && t.rendered == before + t.line[start..t.index]
  }

  lemma RevealKeepsShows(t: Typewriter, dt: real, before: string, start: nat)
    requires Shows(t, before, start)
    ensures Shows(Reveal(t, dt), before, start)
  {
    if Reveal(t, dt).index == t.index + 1 {
      assert t.line[start..t.index + 1] == t.line[start..t.index] + [t.line[t.index]];
    }
  }

  /** Before Init the line is empty, afterwards it is the first line of the dialogue. */
  predicate FirstLineOrEmpty(line: string)
  {
    line == "" || line == DIALOG_PARTS[0]
  }

  class IntroCutscene {
    var renderedText: string
    var currLine: string
    var charIndex: nat
    var charTimerMs: real
    var dialogueTimerMs: real
    var phase: int
    /** The text shown before the current reveal of the line started, and the index it started from. */
    ghost var before: string
    ghost var start: nat

    /**
     * The phase stays at the first line, the current line is empty or that
     * line, the index stays within it, and what is shown is the earlier text
     * followed by the characters revealed since.
     */
    ghost predicate Valid()
      reads this
    {
      phase == 0 && FirstLineOrEmpty(currLine) &&
      Shows(Typewriter(renderedText, currLine, charIndex, charTimerMs), before, start)
    }

    constructor ()
      ensures Valid()
      ensures renderedText == "" && currLine == "" && charIndex == 0 && charTimerMs == 0.0
      ensures dialogueTimerMs == PHASE0_TIME && phase == 0
    {
      renderedText := "";
      currLine := "";
      charIndex := 0;
      charTimerMs := 0.0;
      dialogueTimerMs := PHASE0_TIME;
      phase := 0;
      before := "";
      start := 0;
    }

    /** Init: the text is a single space and the first line is the current one (the index is left as it is). */
    method Init()
      requires Valid()
      modifies this
      ensures Valid()
      ensures renderedText == " " && currLine == DIALOG_PARTS[0]
      ensures phase == old(phase) && charIndex == old(charIndex) && charTimerMs == old(charTimerMs) && dialogueTimerMs == old(dialogueTimerMs)
    {
      renderedText := " ";
      currLine := DIALOG_PARTS[0];
      before := " ";
      start := charIndex;
    }

    method RevealCharacters(dt: real)
      requires Valid()
      modifies this
      ensures Valid()
      ensures Typewriter(renderedText, currLine, charIndex, charTimerMs) ==
              Reveal(Typewriter(old(renderedText), old(currLine), old(charIndex), old(charTimerMs)), dt)
      ensures phase == old(phase) && dialogueTimerMs == old(dialogueTimerMs) && before == old(before) && start == old(start)
    {
      RevealKeepsShows(Typewriter(renderedText, currLine, charIndex, charTimerMs), dt, before, start);
      if charIndex < |currLine| {
        charTimerMs := charTimerMs + dt;
        if charTimerMs >= CHAR_TIME_MS {
          charTimerMs := 0.0;
          renderedText := renderedText + [currLine[charIndex]];
          charIndex := charIndex + 1;
        }
      }
    }

    /**
     * Update: the dialogue timer counts down; when it has run out the line
     * of the current phase restarts from its first character with the timer
     * reset; then one reveal runs. The phase never changes and the text
     * never shrinks.
     */
    method Update(dt: real)
      requires Valid()
      modifies this
      ensures Valid()
      ensures phase == old(phase)
      ensures old(dialogueTimerMs) > 0.0 ==>
                dialogueTimerMs == old(dialogueTimerMs) - dt &&
                Typewriter(renderedText, currLine, charIndex, charTimerMs) ==
                Reveal(Typewriter(old(renderedText), old(currLine), old(charIndex), old(charTimerMs)), dt)
      ensures old(dialogueTimerMs) <= 0.0 ==>
                dialogueTimerMs == DIALOGUE_TIME_MS &&
                Typewriter(renderedText, currLine, charIndex, charTimerMs) ==
                Reveal(Typewriter(old(renderedText), DIALOG_PARTS[phase], 0, old(charTimerMs)), dt)
      ensures old(renderedText) <= renderedText
    {
      if dialogueTimerMs > 0.0 {
        dialogueTimerMs := dialogueTimerMs - dt;
      } else {
        currLine := DIALOG_PARTS[phase];
        charIndex := 0;
        dialogueTimerMs := DIALOGUE_TIME_MS;
        before := renderedText;
        start := 0;
      }
      ghost var t := Typewriter(renderedText, currLine, charIndex, charTimerMs);
      RevealOneCharacter(t, dt);
      RevealCharacters(dt);
    }
  }
}
