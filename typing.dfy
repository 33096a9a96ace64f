/**
 * The two animations of the home page and the admin home page (the two
 * pages run the same code): the typewriter that types and deletes the
 * headline one character at a time, and the cycle that highlights the
 * floating words "JUST", "DO", "IT" in turn as the mouse moves.
 */
module Typing {

  /** The headline the typewriter types: 31 characters, the dash being U+2014. */
  const TypingPart: string := "I'm Jae Lee \U{2014} a Product Manager"

  /** The position of the typewriter: characters shown, and whether it is deleting. */
  datatype Cursor = Cursor(index: nat, deleting: bool)

  /** The `setTimeout` that a call of `typeText` leaves behind. */
  datatype Timer =
    | NoTimer            // unmounted: the chain stops
    | After(ms: nat)
    | RandomTypingDelay  // `Math.random() * 50 + 50`: at least 50 and below 100 ms

  /** One call of `typeText` on a headline of `len` characters. */
  function Step(c: Cursor, len: nat): Cursor {
    if c.deleting then
      if c.index > 0 then Cursor(c.index - 1, true) else Cursor(0, false)
    else
      if c.index < len then Cursor(c.index + 1, false) else Cursor(c.index, true)
  }

  /** The delay after that call. */
  function Delay(c: Cursor, len: nat): Timer {
    if c.deleting then
      if c.index > 0 then After(30) else After(500)
    else
      if c.index < len then RandomTypingDelay else After(1000)
  }

  /** `n` successive calls. */
  function Run(c: Cursor, len: nat, n: nat): Cursor
    decreases n
  {
    if n == 0 then c else Run(Step(c, len), len, n - 1)
  }

  /** A step never takes the index past the headline. */
  lemma StepInBounds(c: Cursor, len: nat)
    requires c.index <= len
    ensures Step(c, len).index <= len
    ensures Step(c, len).index == c.index + 1 || Step(c, len).index == c.index - 1
      || Step(c, len).index == c.index
  {
  }

  /** From any typing position `i`, `len - i` steps type out the rest of the headline. */
  lemma {:induction false} TypesToEnd(i: nat, len: nat)
    requires i <= len
    ensures Run(Cursor(i, false), len, len - i) == Cursor(len, false)
    decreases len - i
  {
    if i < len {
      assert Step(Cursor(i, false), len) == Cursor(i + 1, false);
      TypesToEnd(i + 1, len);
    }
  }

  /** From any deleting position `i`, `i` steps delete back to the empty headline. */
  lemma {:induction false} DeletesToStart(i: nat, len: nat)
    ensures Run(Cursor(i, true), len, i) == Cursor(0, true)
  {
    if i > 0 {
      assert Step(Cursor(i, true), len) == Cursor(i - 1, true);
      DeletesToStart(i - 1, len);
    }
  }

  lemma {:induction false} RunSplits(c: Cursor, len: nat, m: nat, n: nat)
    ensures Run(c, len, m + n) == Run(Run(c, len, m), len, n)
    decreases m
  {
    if m > 0 {
      RunSplits(Step(c, len), len, m - 1, n);
    }
  }

  /**
   * The animation is a cycle of `2 * len + 2` calls: type `len` characters,
   * turn round, delete them all, turn round.
   */
  lemma CycleReturns(len: nat)
    ensures Run(Cursor(0, false), len, 2 * len + 2) == Cursor(0, false)
  {
    TypesToEnd(0, len);
    RunSplits(Cursor(0, false), len, len, 1);
    assert Run(Cursor(len, false), len, 1) == Cursor(len, true);
    DeletesToStart(len, len);
    RunSplits(Cursor(0, false), len, len + 1, len);
    RunSplits(Cursor(0, false), len, 2 * len + 1, 1);
  }

  /** The state `typeText` closes over, and the text it shows. */
  class Typewriter {
    var index: nat
    var deleting: bool
    var mounted: bool
    /** `typingText`: always the first `index` characters of the headline. */
    var shown: string

    predicate Valid()
      reads this
    {
      index <= |TypingPart| && shown == TypingPart[..index]
    }

    constructor()
      ensures Valid() && index == 0 && !deleting && mounted && shown == ""
    {
      index := 0;
      deleting := false;
      mounted := true;
      shown := "";
    }

    /**
     * `typeText`: one step of the animation, returning the timer it sets.
     * Once unmounted it does nothing and sets no timer.
     */
    method TypeText() returns (timer: Timer)
      requires Valid()
      modifies this
      ensures Valid() && mounted == old(mounted)
      ensures !mounted ==> timer == NoTimer && index == old(index) && deleting == old(deleting)
      ensures mounted ==> Cursor(index, deleting) == Step(Cursor(old(index), old(deleting)), |TypingPart|)
      ensures mounted ==> timer == Delay(Cursor(old(index), old(deleting)), |TypingPart|)
    {
      if !mounted {
        return NoTimer;
      }
      if deleting {
        if index > 0 {
          index := index - 1;
          shown := TypingPart[..index];
          timer := After(30);
        } else {
          deleting := false;
          timer := After(500);
        }
      } else {
        if index < |TypingPart| {
          index := index + 1;
          shown := TypingPart[..index];
          timer := RandomTypingDelay;
        } else {
          deleting := true;
          timer := After(1000);
        }
      }
    }

    /** The effect's cleanup. */
    method Unmount()
      modifies this
      ensures !mounted && index == old(index) && deleting == old(deleting) && shown == old(shown)
    {
      mounted := false;
    }
  }

  /** The number of floating words. */
  const WordCount := 3
  /** A mouse move advances the highlight only after more than 400 ms of quiet. */
  const MoveGap := 400
  /** A highlight fades 1200 ms after it was set. */
  const HighlightTime := 1200

  /** `(prev + 1) % 3`: the next word after `prev`, where -1 means none. */
  function NextWord(prev: int): (r: int)
    requires -1 <= prev < WordCount
    ensures 0 <= r < WordCount
    ensures r == if prev == WordCount - 1 then 0 else prev + 1
  {
    (prev + 1) % WordCount
  }

  /** Three advances from any word come back to it. */
  lemma NextWordCycles(w: int)
    requires 0 <= w < WordCount
    ensures NextWord(NextWord(NextWord(w))) == w
  {
  }

  /**
   * The highlight of the floating words: `activeText` (-1 for none), the
   * time of the last counted mouse move, and the fade timer, which runs
   * exactly while a word is highlighted.
   */
  class WordCycle {
    var active: int
    var lastMove: int
    var fadeAt: int
    var fadePending: bool

    predicate Valid()
      reads this
    {
      -1 <= active < WordCount && (fadePending <==> active != -1)
    }

    constructor()
      ensures Valid() && active == -1 && lastMove == 0 && !fadePending && fadeAt == 0
    {
      active := -1;
      lastMove := 0;
      fadeAt := 0;
      fadePending := false;
    }

    /** `handleMouseMove` at time `now` (`Date.now()`). */
    method MouseMove(now: int)
      requires Valid()
      modifies this
      ensures Valid()
      ensures now - old(lastMove) > MoveGap ==>
        active == NextWord(old(active)) && lastMove == now && fadePending && fadeAt == now + HighlightTime
      ensures now - old(lastMove) <= MoveGap ==>
        active == old(active) && lastMove == old(lastMove)
        && fadePending == old(fadePending) && fadeAt == old(fadeAt)
    {
      if now - lastMove > MoveGap {
        active := NextWord(active);
        lastMove := now;
        fadePending := true;
        fadeAt := now + HighlightTime;
      }
    }

    /** The fade timer fires at time `now`, no earlier than it was due: the highlight goes. */
    method FadeTimerFires(now: int)
      requires Valid() && fadePending && now >= fadeAt
      modifies this
      ensures Valid() && active == -1 && !fadePending
      ensures lastMove == old(lastMove) && fadeAt == old(fadeAt)
    {
      active := -1;
      fadePending := false;
    }
  }
}
