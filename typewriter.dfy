/**
 * The typewriter effect of the hero header. Three state cells (the text typed
 * so far, the index of the next character, the index of the current phrase)
 * advance on every timer tick: a tick either types the next character of the
 * current phrase, after a short delay, or, once the phrase is complete and has
 * been on screen for a longer dwell, clears the text and moves on to the next
 * phrase, cyclically.
 *
 * Timers are discrete ticks: `Tick` performs what the pending timeout would do
 * and returns the delay (in milliseconds) that the source schedules it with.
 */
module Typewriter {

  /** Delay before typing one more character. */
  const TypingDelay: nat := 100
  /** Dwell time of a completed phrase before it is cleared. */
  const PauseDelay: nat := 2000

  /** The phrases the header cycles through. */
  const Texts: seq<string> := ["3D DESIGNER", "WEB DEVELOPER", "CREATIVE DESIGNER"]

  datatype State = State(typed: string, charIndex: nat, textIndex: nat)

  /** The state at mount: nothing typed, first phrase. */
  const Initial: State := State("", 0, 0)

  /** The typed text is the first `charIndex` characters of the current phrase. */
  ghost predicate Inv(texts: seq<string>, s: State)
  {
    && s.textIndex < |texts|
    && s.charIndex <= |texts[s.textIndex]|
    && s.typed == texts[s.textIndex][..s.charIndex]
  }

  /** The phrase at `textIndex` is fully typed and shown. */
  ghost predicate ShowsInFull(texts: seq<string>, s: State, i: nat)
    requires i < |texts|
  {
    s == State(texts[i], |texts[i]|, i)
  }

  /** The effect of one tick: type a character, or clear and advance the phrase. */
  function Next(texts: seq<string>, s: State): (r: State)
    requires s.textIndex < |texts|
    ensures r.textIndex < |texts|
    ensures Inv(texts, s) ==> Inv(texts, r)
    ensures s.charIndex >= |texts[s.textIndex]| ==> r == State("", 0, (s.textIndex + 1) % |texts|)
  {
    var phrase := texts[s.textIndex];
    if s.charIndex < |phrase| then
      State(s.typed + [phrase[s.charIndex]], s.charIndex + 1, s.textIndex)
    else
      State("", 0, (s.textIndex + 1) % |texts|)
  }

  /** The delay the tick leading out of `s` is scheduled with. */
  function Delay(texts: seq<string>, s: State): (d: nat)
    requires s.textIndex < |texts|
    ensures d == TypingDelay <==> s.charIndex < |texts[s.textIndex]|
    ensures d == PauseDelay <==> s.charIndex >= |texts[s.textIndex]|
  {
    if s.charIndex < |texts[s.textIndex]| then TypingDelay else PauseDelay
  }

  /** The state after `n` ticks. */
  function Run(texts: seq<string>, s: State, n: nat): (r: State)
    requires s.textIndex < |texts|
    ensures r.textIndex < |texts|
    decreases n
  {
    if n == 0 then s else Run(texts, Next(texts, s), n - 1)
  }

  /** Ticks in one full cycle: each phrase takes one tick per character plus one to clear. */
  function CycleLength(texts: seq<string>): nat
    decreases |texts|
  {
    if texts == [] then 0
    else CycleLength(texts[..|texts| - 1]) + |texts[|texts| - 1]| + 1
  }

  /** The tick at which phrase `i` starts (nothing typed yet) within a cycle. */
  function Offset(texts: seq<string>, i: nat): nat
    requires i <= |texts|
  {
    CycleLength(texts[..i])
  }

  lemma {:induction false} InitialInv(texts: seq<string>)
    requires |texts| > 0
    ensures Inv(texts, Initial)
  {
  }

  /** The invariant holds after any number of ticks from a state where it holds. */
  lemma {:induction false} RunKeepsInv(texts: seq<string>, s: State, n: nat)
    requires Inv(texts, s)
    ensures Inv(texts, Run(texts, s, n))
    decreases n
  {
    if n > 0 {
      RunKeepsInv(texts, Next(texts, s), n - 1);
    }
  }

  /** Running `a` ticks and then `b` more is running `a + b` ticks. */
  lemma {:induction false} RunAdd(texts: seq<string>, s: State, a: nat, b: nat)
    requires s.textIndex < |texts|
    ensures Run(texts, Run(texts, s, a), b) == Run(texts, s, a + b)
    decreases a
  {
    if a > 0 {
      RunAdd(texts, Next(texts, s), a - 1, b);
    }
  }

  /** Typing `k` more characters of phrase `i` after the first `j`. */
  lemma {:induction false} RunTypes(texts: seq<string>, i: nat, j: nat, k: nat)
    requires i < |texts| && j + k <= |texts[i]|
    ensures Run(texts, State(texts[i][..j], j, i), k) == State(texts[i][..j + k], j + k, i)
    decreases k
  {
    if k > 0 {
      var s := State(texts[i][..j], j, i);
      assert texts[i][..j] + [texts[i][j]] == texts[i][..j + 1];
      assert Next(texts, s) == State(texts[i][..j + 1], j + 1, i);
      RunTypes(texts, i, j + 1, k - 1);
    }
  }

  /** One phrase takes `|texts[i]| + 1` ticks, and ends at the start of the next phrase. */
  lemma {:induction false} RunPhrase(texts: seq<string>, i: nat)
    requires i < |texts|
    ensures Run(texts, State("", 0, i), |texts[i]| + 1) == State("", 0, (i + 1) % |texts|)
  {
    var n := |texts[i]|;
    assert texts[i][..0] == "";
    RunTypes(texts, i, 0, n);
    assert texts[i][..n] == texts[i];
    RunAdd(texts, State("", 0, i), n, 1);
    assert Run(texts, State(texts[i], n, i), 1) == Next(texts, State(texts[i], n, i));
  }

  lemma OffsetStep(texts: seq<string>, i: nat)
    requires i < |texts|
    ensures Offset(texts, i + 1) == Offset(texts, i) + |texts[i]| + 1
  {
    assert texts[..i + 1][..i] == texts[..i];
  }

  lemma {:induction false} ModSmall(a: nat, n: nat)
    requires a < n
    ensures a % n == a
  {
  }

  lemma {:induction false} ModSelf(n: nat)
    requires n > 0
    ensures n % n == 0
  {
  }

  /** Phrase `i` of the list begins at tick `Offset(texts, i)`. */
  lemma {:induction false} PhraseStart(texts: seq<string>, i: nat)
    requires i < |texts|
    ensures Run(texts, Initial, Offset(texts, i)) == State("", 0, i)
    decreases i
  {
    if i == 0 {
      assert texts[..0] == [];
    } else {
      var p := i - 1;
      PhraseStart(texts, p);
      OffsetStep(texts, p);
      RunAdd(texts, Initial, Offset(texts, p), |texts[p]| + 1);
      RunPhrase(texts, p);
      ModSmall(i, |texts|);
    }
  }

  /** The tick after the last phrase is cleared is the start of phrase 0 again. */
  lemma {:induction false} CycleEnd(texts: seq<string>)
    requires |texts| > 0
    ensures Run(texts, Initial, Offset(texts, |texts|)) == Initial
  {
    var p := |texts| - 1;
    calc {
      Run(texts, Initial, Offset(texts, p + 1));
      { OffsetStep(texts, p); }
      Run(texts, Initial, Offset(texts, p) + (|texts[p]| + 1));
      { RunAdd(texts, Initial, Offset(texts, p), |texts[p]| + 1); }
      Run(texts, Run(texts, Initial, Offset(texts, p)), |texts[p]| + 1);
      { PhraseStart(texts, p); }
      Run(texts, State("", 0, p), |texts[p]| + 1);
      { RunPhrase(texts, p); }
      State("", 0, (p + 1) % |texts|);
    }
  }

  /** Starting from the initial state, phrase `i` begins at tick `Offset(texts, i)`. */
  lemma {:induction false} RunToPhrase(texts: seq<string>, i: nat)
    requires i <= |texts| && |texts| > 0
    ensures Run(texts, Initial, Offset(texts, i)) == State("", 0, i % |texts|)
  {
    if i < |texts| {
      PhraseStart(texts, i);
      ModSmall(i, |texts|);
    } else {
      CycleEnd(texts);
      ModSelf(|texts|);
    }
  }

  /**
   * Every state of a cycle: at tick `Offset(texts, i) + j` the first `j`
   * characters of phrase `i` are on screen.
   */
  lemma RunAt(texts: seq<string>, i: nat, j: nat)
    requires i < |texts| && j <= |texts[i]|
    ensures Run(texts, Initial, Offset(texts, i) + j) == State(texts[i][..j], j, i)
  {
    PhraseStart(texts, i);
    assert texts[i][..0] == "";
    RunTypes(texts, i, 0, j);
    RunAdd(texts, Initial, Offset(texts, i), j);
  }

  /** After one full cycle the effect is back at its initial state. */
  lemma Cycle(texts: seq<string>)
    requires |texts| > 0
    ensures Run(texts, Initial, CycleLength(texts)) == Initial
  {
    RunToPhrase(texts, |texts|);
    assert texts[..|texts|] == texts;
  }

  /** The effect repeats forever: `m` full cycles bring it back to where it was. */
  lemma {:induction false} Periodic(texts: seq<string>, m: nat, n: nat)
    requires |texts| > 0
    ensures Run(texts, Initial, m * CycleLength(texts) + n) == Run(texts, Initial, n)
    decreases m
  {
    if m > 0 {
      var c := CycleLength(texts);
      calc {
        Run(texts, Initial, m * c + n);
        { assert m * c + n == c + ((m - 1) * c + n); }
        Run(texts, Initial, c + ((m - 1) * c + n));
        { RunAdd(texts, Initial, c, (m - 1) * c + n); }
        Run(texts, Run(texts, Initial, c), (m - 1) * c + n);
        { Cycle(texts); }
        Run(texts, Initial, (m - 1) * c + n);
        { Periodic(texts, m - 1, n); }
        Run(texts, Initial, n);
      }
    }
  }

  /** Every tick of a cycle falls within some phrase, at some character position. */
  lemma {:induction false} Decompose(texts: seq<string>, t: nat) returns (i: nat, j: nat)
    requires t < CycleLength(texts)
    ensures i < |texts| && j <= |texts[i]| && t == Offset(texts, i) + j
    decreases |texts|
  {
    var n := |texts| - 1;
    var init := texts[..n];
    assert Offset(texts, n) == CycleLength(init);
    if t < CycleLength(init) {
      i, j := Decompose(init, t);
      assert init[..i] == texts[..i];
    } else {
      i, j := n, t - CycleLength(init);
    }
  }

  /** Later phrases start later. */
  lemma {:induction false} OffsetMonotone(texts: seq<string>, i: nat, k: nat)
    requires i <= k <= |texts|
    ensures Offset(texts, i) <= Offset(texts, k)
    decreases k - i
  {
    if i < k {
      OffsetStep(texts, i);
      OffsetMonotone(texts, i + 1, k);
    }
  }

  /** The phrase and character position of a tick are unique: `Decompose` has one answer. */
  lemma {:induction false} PositionUnique(texts: seq<string>, i: nat, j: nat, i': nat, j': nat)
    requires i < |texts| && j <= |texts[i]| && i' < |texts| && j' <= |texts[i']|
    requires Offset(texts, i) + j == Offset(texts, i') + j'
    ensures i == i' && j == j'
  {
    if i < i' {
      OffsetStep(texts, i);
      OffsetMonotone(texts, i + 1, i');
    } else if i' < i {
      OffsetStep(texts, i');
      OffsetMonotone(texts, i' + 1, i);
    }
  }

  /**
   * Within one cycle, phrase `i` is on screen in full at exactly one tick,
   * the one just before it is cleared.
   */
  lemma ShownInFullOnce(texts: seq<string>, i: nat, t: nat)
    requires i < |texts| && t < CycleLength(texts)
    ensures ShowsInFull(texts, Run(texts, Initial, t), i) <==> t == Offset(texts, i) + |texts[i]|
  {
    var i', j' := Decompose(texts, t);
    RunAt(texts, i', j');
    RunAt(texts, i, |texts[i]|);
    assert texts[i][..|texts[i]|] == texts[i];
  }

  /**
   * The long dwell is scheduled exactly when a phrase is on screen in full:
   * every other tick of a cycle types a character after the short delay.
   */
  lemma {:induction false} PauseExactlyWhenFull(texts: seq<string>, t: nat)
    requires t < CycleLength(texts)
    ensures Delay(texts, Run(texts, Initial, t)) == PauseDelay <==>
              exists i :: 0 <= i < |texts| && ShowsInFull(texts, Run(texts, Initial, t), i)
  {
    var i, j := Decompose(texts, t);
    RunAt(texts, i, j);
    if j == |texts[i]| {
      assert texts[i][..j] == texts[i];
      assert ShowsInFull(texts, Run(texts, Initial, t), i);
    }
  }

  /** Total characters of the phrases. */
  function CharCount(texts: seq<string>): nat
    decreases |texts|
  {
    if texts == [] then 0 else CharCount(texts[..|texts| - 1]) + |texts[|texts| - 1]|
  }

  /** The milliseconds that `n` ticks from `s` take: the sum of the delays they are scheduled with. */
  function Elapsed(texts: seq<string>, s: State, n: nat): nat
    requires s.textIndex < |texts|
    decreases n
  {
    if n == 0 then 0 else Delay(texts, s) + Elapsed(texts, Next(texts, s), n - 1)
  }

  lemma {:induction false} ElapsedAdd(texts: seq<string>, s: State, a: nat, b: nat)
    requires s.textIndex < |texts|
    ensures Elapsed(texts, s, a + b) == Elapsed(texts, s, a) + Elapsed(texts, Run(texts, s, a), b)
    decreases a
  {
    if a > 0 {
      ElapsedAdd(texts, Next(texts, s), a - 1, b);
    }
  }

  /** Typing `k` more characters of phrase `i` after the first `j` takes `k` short delays. */
  lemma {:induction false} ElapsedTyping(texts: seq<string>, i: nat, j: nat, k: nat)
    requires i < |texts| && j + k <= |texts[i]|
    ensures Elapsed(texts, State(texts[i][..j], j, i), k) == k * TypingDelay
    decreases k
  {
    if k > 0 {
      var s := State(texts[i][..j], j, i);
      assert texts[i][..j] + [texts[i][j]] == texts[i][..j + 1];
      assert Next(texts, s) == State(texts[i][..j + 1], j + 1, i);
      ElapsedTyping(texts, i, j + 1, k - 1);
    }
  }

  /** One phrase takes a short delay per character and then the dwell. */
  lemma {:induction false} ElapsedPhrase(texts: seq<string>, i: nat)
    requires i < |texts|
    ensures Elapsed(texts, State("", 0, i), |texts[i]| + 1) == |texts[i]| * TypingDelay + PauseDelay
  {
    var n := |texts[i]|;
    assert texts[i][..0] == "";
    ElapsedTyping(texts, i, 0, n);
    RunTypes(texts, i, 0, n);
    assert texts[i][..n] == texts[i];
    ElapsedAdd(texts, State("", 0, i), n, 1);
  }

  lemma {:induction false} CharCountStep(texts: seq<string>, i: nat)
    requires i < |texts|
    ensures CharCount(texts[..i + 1]) == CharCount(texts[..i]) + |texts[i]|
  {
    assert texts[..i + 1][..i] == texts[..i];
  }

  /** From mount to the start of phrase `i`: the characters of the earlier phrases and one dwell each. */
  lemma {:induction false} ElapsedToPhrase(texts: seq<string>, i: nat)
    requires i <= |texts| && |texts| > 0
    ensures Elapsed(texts, Initial, Offset(texts, i)) == CharCount(texts[..i]) * TypingDelay + i * PauseDelay
    decreases i
  {
    if i == 0 {
      assert texts[..0] == [];
    } else {
      var p := i - 1;
      var n := |texts[p]|;
      var c := CharCount(texts[..p]);
      ElapsedToPhrase(texts, p);
      OffsetStep(texts, p);
      ElapsedAdd(texts, Initial, Offset(texts, p), n + 1);
      PhraseStart(texts, p);
      ElapsedPhrase(texts, p);
      CharCountStep(texts, p);
      calc {
        Elapsed(texts, Initial, Offset(texts, i));
        c * TypingDelay + p * PauseDelay + (n * TypingDelay + PauseDelay);
        { assert c * TypingDelay + n * TypingDelay == (c + n) * TypingDelay; }
        (c + n) * TypingDelay + i * PauseDelay;
      }
    }
  }

  /** A full cycle lasts 100 ms per character plus a 2000 ms dwell per phrase. */
  lemma {:induction false} CycleTime(texts: seq<string>)
    requires |texts| > 0
    ensures Elapsed(texts, Initial, CycleLength(texts)) == CharCount(texts) * TypingDelay + |texts| * PauseDelay
  {
    ElapsedToPhrase(texts, |texts|);
    assert texts[..|texts|] == texts;
  }

  /** The phrases of the header: a cycle takes 12 + 14 + 18 = 44 ticks. */
  lemma HeaderCycle()
    ensures CycleLength(Texts) == 44
    ensures Run(Texts, Initial, 44) == Initial
  {
    assert |Texts[0]| == 11 && |Texts[1]| == 13 && |Texts[2]| == 17;
    assert CycleLength(Texts[..0]) == 0;
    assert Texts[..1][..0] == Texts[..0];
    assert CycleLength(Texts[..1]) == 12;
    assert Texts[..2][..1] == Texts[..1];
    assert CycleLength(Texts[..2]) == 26;
    assert Texts[..2] == Texts[..|Texts| - 1];
    Cycle(Texts);
  }

  /** The header's cycle lasts 41 characters of 100 ms plus three dwells of 2000 ms: 10100 ms. */
  lemma HeaderCycleTime()
    ensures Elapsed(Texts, Initial, CycleLength(Texts)) == 10100
  {
    CycleTime(Texts);
    assert Texts[..0] == [] && Texts[..1][..0] == Texts[..0] && Texts[..2][..1] == Texts[..1];
    assert CharCount(Texts[..1]) == 11;
    assert CharCount(Texts[..2]) == 24;
    assert Texts[..2] == Texts[..|Texts| - 1];
    assert CharCount(Texts) == 41;
  }

  /** Two phrases "A" and "BC": "A" is shown, cleared, "BC" is typed, cleared, and so on. */
  lemma TwoPhraseCycle()
    ensures Run(["A", "BC"], Initial, 1).typed == "A"
    ensures Run(["A", "BC"], Initial, 2) == State("", 0, 1)
    ensures Run(["A", "BC"], Initial, 4).typed == "BC"
    ensures Run(["A", "BC"], Initial, 5) == Initial
  {
  }

  /** The typewriter of the hero header. */
  class TypewriterEffect {
    const texts: seq<string>
    var typedText: string
    var charIndex: nat
    var textIndex: nat

    ghost predicate Valid()
      reads this
    {
      Inv(texts, Current())
    }

    function Current(): State
      reads this
    {
      State(typedText, charIndex, textIndex)
    }

    constructor ()
      ensures texts == Texts
      ensures Current() == Initial
      ensures Valid()
    {
      texts := Texts;
      typedText, charIndex, textIndex := "", 0, 0;
    }

    /** The pending timeout fires; returns the delay it was scheduled with. */
    method Tick() returns (delay: nat)
      requires Valid()
      modifies this
      ensures Valid()
      ensures Current() == Next(texts, old(Current()))
      ensures delay == Delay(texts, old(Current()))
      ensures old(charIndex) < |texts[old(textIndex)]| ==>
                && typedText == old(typedText) + [texts[old(textIndex)][old(charIndex)]]
                && charIndex == old(charIndex) + 1
                && textIndex == old(textIndex)
                && delay == TypingDelay
      ensures old(charIndex) == |texts[old(textIndex)]| ==>
                && typedText == ""
                && charIndex == 0
                && textIndex == (old(textIndex) + 1) % |texts|
                && delay == PauseDelay
    {
      if charIndex < |texts[textIndex]| {
        typedText := typedText + [texts[textIndex][charIndex]];
        charIndex := charIndex + 1;
        delay := TypingDelay;
      } else {
        typedText := "";
        charIndex := 0;
        textIndex := (textIndex + 1) % |texts|;
        delay := PauseDelay;
      }
    }
  }
}
