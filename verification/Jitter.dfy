/**
 The lock-free source of jitter: many callers step one 64-bit xorshift word with a weak
 compare-exchange, and every successful exchange hands its new word to one caller.
 */
module Jitter {
  const SEED: bv64 := 0x9E37_79B9_7F4A_7C15

  function XorShift(x: bv64): bv64 {
    Third(Second(First(x)))
  }

  function First(x: bv64): bv64 { x ^ (x << 13) }

  function Second(x: bv64): bv64 { x ^ (x >> 7) }

  function Third(x: bv64): bv64 { x ^ (x << 17) }

  lemma XorShiftNonZero(x: bv64)
    requires x != 0
    ensures XorShift(x) != 0
  {
  }

  lemma XorShiftMoves(x: bv64)
    requires x != 0
    ensures XorShift(x) != x
  {
  }

  /** Undoes a step: each of the three shifts in turn, the last first. */
  function Unstep(y: bv64): bv64 {
    Undo13(Undo7(Undo17(y)))
  }

  function Undo17(y: bv64): bv64 { y ^ (y << 17) ^ (y << 34) ^ (y << 51) }

  function Undo7(y: bv64): bv64 {
    var a := y ^ (y >> 7);
    var b := a ^ (a >> 14);
    var c := b ^ (b >> 28);
    c ^ (c >> 56)
  }

  function Undo13(y: bv64): bv64 { y ^ (y << 13) ^ (y << 26) ^ (y << 39) ^ (y << 52) }

  lemma ThirdByValue(x: bv64)
    ensures Undo17(x ^ (x << 17)) == x
  {
  }

  lemma ThirdUndone(x: bv64)
    ensures Undo17(Third(x)) == x
  {
    hide Undo17;
    ThirdByValue(x);
  }

  lemma SecondByValue(x: bv64)
    ensures Undo7(x ^ (x >> 7)) == x
  {
  }

  lemma SecondUndone(x: bv64)
    ensures Undo7(Second(x)) == x
  {
    hide Undo7;
    SecondByValue(x);
  }

  lemma FirstByValue(x: bv64)
    ensures Undo13(x ^ (x << 13)) == x
  {
  }

  lemma FirstUndone(x: bv64)
    ensures Undo13(First(x)) == x
  {
    hide Undo13;
    FirstByValue(x);
  }

  /** A step loses nothing: it can be undone, so different words have different successors. */
  lemma StepCanBeUndone(x: bv64)
    ensures Unstep(XorShift(x)) == x
  {
    hide Undo17;
    hide Undo7;
    hide Undo13;
    hide First;
    hide Second;
    hide Third;
    ThirdUndone(Second(First(x)));
    SecondUndone(First(x));
    FirstUndone(x);
  }

  /** The sequential generator: the word after `k` steps from the seed. */
  function Orbit(k: nat): bv64 {
    if k == 0 then SEED else XorShift(Orbit(k - 1))
  }

  lemma {:induction false} OrbitNonZero(k: nat)
    ensures Orbit(k) != 0 && Orbit(k + 1) != Orbit(k)
  {
    hide XorShift;
    if k > 0 {
      OrbitNonZero(k - 1);
      XorShiftNonZero(Orbit(k - 1));
    }
    XorShiftMoves(Orbit(k));
  }

  /** No word comes twice before the seed comes again. */
  lemma {:induction false} FirstRepeatIsTheSeed(i: nat, j: nat)
    requires i < j && Orbit(i) == Orbit(j)
    ensures Orbit(j - i) == SEED
  {
    hide XorShift;
    hide Unstep;
    if i > 0 {
      StepCanBeUndone(Orbit(i - 1));
      StepCanBeUndone(Orbit(j - 1));
      FirstRepeatIsTheSeed(i - 1, j - 1);
    }
  }

  // ----- any number of callers -----

  /** A roll is the low half of the word. */
  function Low(x: bv64): bv32 { (x & 0xFFFF_FFFF) as bv32 }

  /** The shared word, what each running caller last read, and the rolls handed out, in order. */
  datatype State = State(word: bv64, callers: seq<bv64>, rolls: seq<bv32>)

  datatype Step =
    | Call                            // a caller loads the word
    | Exchange(c: nat, weak: bool)    // and tries to replace it; a weak exchange may fail for no reason

  predicate Enabled(s: State, a: Step) { a.Exchange? ==> a.c < |s.callers| }

  /** A caller that succeeds leaves; one that fails takes the actual word and tries again. */
  function Apply(s: State, a: Step): State
    requires Enabled(s, a)
  {
    match a
    case Call => s.(callers := s.callers + [s.word])
    case Exchange(c, weak) =>
      if weak || s.callers[c] != s.word then s.(callers := s.callers[c := s.word])
      else
        var x := XorShift(s.callers[c]);
        State(x, s.callers[..c] + s.callers[c + 1..], s.rolls + [Low(x)])
  }

  const INITIAL := State(SEED, [], [])

  predicate Runs(s: State, steps: seq<Step>)
    decreases |steps|
  {
    steps == [] || (Enabled(s, steps[0]) && Runs(Apply(s, steps[0]), steps[1..]))
  }

  function Exec(s: State, steps: seq<Step>): State
    requires Runs(s, steps)
    decreases |steps|
  {
    if steps == [] then s else Exec(Apply(s, steps[0]), steps[1..])
  }

  ghost predicate OnOrbit(s: State) {
    s.word == Orbit(|s.rolls|) && forall i :: 0 <= i < |s.rolls| ==> s.rolls[i] == Low(Orbit(i + 1))
  }

  lemma {:induction false} RunsStayOnOrbit(s: State, steps: seq<Step>)
    requires OnOrbit(s) && Runs(s, steps)
    ensures OnOrbit(Exec(s, steps))
    decreases |steps|
  {
    hide XorShift;
    hide Low;
    if steps != [] {
      RunsStayOnOrbit(Apply(s, steps[0]), steps[1..]);
    }
  }

  /** Roll `i` is the low half of the orbit's next word, which is new and not zero. */
  ghost predicate RollOk(roll: bv32, i: nat) {
    roll == Low(Orbit(i + 1)) && Orbit(i + 1) != 0 && Orbit(i + 1) != Orbit(i)
  }

  /**
   In any interleaving of callers the successful exchanges walk the orbit of the sequential
   generator: the rolls handed out are the low halves of its words in order, none skipped and none
   handed out twice, the shared word is the last of them, and no word is zero or the one before.
   */
  lemma RollsWalkTheOrbit(steps: seq<Step>)
    requires Runs(INITIAL, steps)
    ensures var s := Exec(INITIAL, steps);
            && s.word == Orbit(|s.rolls|) && s.word != 0
            && forall i :: 0 <= i < |s.rolls| ==> RollOk(s.rolls[i], i)
  {
    hide Low;
    RunsStayOnOrbit(INITIAL, steps);
    var s := Exec(INITIAL, steps);
    OrbitNonZero(|s.rolls|);
    forall i | 0 <= i < |s.rolls|
      ensures RollOk(s.rolls[i], i)
    {
      OrbitNonZero(i);
      OrbitNonZero(i + 1);
    }
  }

  class JitterState {
    var word: bv64
    ghost var steps: nat

    ghost predicate Valid()
      reads this
    {
      word == Orbit(steps)
    }

    constructor ()
      ensures Valid() && steps == 0
    {
      word := SEED;
      steps := 0;
    }

    /** Other callers' successful exchanges. */
    method Others(n: nat)
      requires Valid()
      modifies this
      ensures Valid() && steps == old(steps) + n
    {
      hide XorShift;
      for i := 0 to n
        invariant Valid() && steps == old(steps) + i
      {
        word, steps := XorShift(word), steps + 1;
      }
    }

    /**
     `next_jitter_roll`: before its attempt `i` other callers succeed `attempts[i].0` times, and it
     may fail for no reason; the attempt after the last of these is undisturbed.
     */
    method NextJitterRoll(attempts: seq<(nat, bool)>) returns (roll: bv32)
      requires Valid()
      modifies this
      ensures Valid() && steps > old(steps) && word != 0
      ensures roll == Low(Orbit(steps))
    {
      hide XorShift;
      hide Low;
      var cur := word;
      var i := 0;
      while true
        invariant Valid() && steps >= old(steps) && i <= |attempts|
        invariant i == |attempts| ==> attempts == [] || cur == word
        invariant attempts == [] ==> cur == word
        decreases |attempts| - i, cur != word
      {
        var x := XorShift(cur);
        var weak := false;
        if i < |attempts| {
          Others(attempts[i].0);
          weak := attempts[i].1;
          i := i + 1;
        }
        if word == cur && !weak {
          word, steps := x, steps + 1;
          OrbitNonZero(steps);
          return Low(x);
        }
        cur := word;
      }
    }
  }

  /** A caller that is not interrupted gets the next roll at once and leaves the others as they were. */
  lemma CallerGetsNextRoll(s: State)
    ensures Enabled(s, Call) && Enabled(Apply(s, Call), Exchange(|s.callers|, false))
    ensures var t := Apply(Apply(s, Call), Exchange(|s.callers|, false));
            && t.callers == s.callers && t.word == XorShift(s.word)
            && t.rolls == s.rolls + [(t.word & 0xFFFF_FFFF) as bv32]
  {
    hide XorShift;
    var called := Apply(s, Call);
    assert called.callers[|s.callers|] == s.word;
    assert called.callers[..|s.callers|] + called.callers[|s.callers| + 1..] == s.callers;
  }
}
