/**
 The 2048-bit shift-register window of run_attack_tests.py, and its comparison with the ring.
 Bit d of the register stands for the number d behind the maximum.
 */
module ShiftWindow {
  import opened AntiReplay

  const WORDS: nat := 32
  const SIZE: nat := 2048

  datatype Window = Window(max: nat, bits: seq<bool>, initialized: bool)

  function Start(): Window {
    Window(0, seq(SIZE, _ => false), false)
  }

  function ShiftLeft(bits: seq<bool>, k: nat): (out: seq<bool>)
    ensures |out| == |bits|
  {
    seq(|bits|, d requires 0 <= d < |bits| => d >= k && bits[d - k])
  }

  /** check_and_update on the flat register: the new window and whether the number is rejected. */
  function Check(w: Window, s: nat): (r: (Window, bool))
    requires |w.bits| == SIZE
    ensures |r.0.bits| == SIZE
  {
    if s == 0 then (w, true)
    else if !w.initialized then (Window(s, seq(64, d => d == 0) + w.bits[64..], true), false)
    else if s > w.max then
      var moved := if s - w.max < SIZE then ShiftLeft(w.bits, s - w.max) else seq(SIZE, _ => false);
      (Window(s, moved[0 := true], true), false)
    else
      var diff := w.max - s;
      if diff >= SIZE || w.bits[diff] then (w, true)
      else (w.(bits := w.bits[diff := true]), false)
  }

  /** The register holds the part of S within SIZE of the maximum. */
  ghost predicate Holds(w: Window, S: set<nat>) {
    && |w.bits| == SIZE
    && IsLast(w.max, S)
    && (w.initialized <==> S != {})
    && (forall d :: 0 <= d < SIZE ==> (w.bits[d] <==> d <= w.max && w.max - d in S))
  }

  lemma StartHolds()
    ensures Holds(Start(), {})
  {}

  /** Rejected exactly: zero, seen, or too far behind. */
  lemma CheckExact(w: Window, S: set<nat>, s: nat)
    requires Holds(w, S)
    ensures Check(w, s).1 <==> s == 0 || s in S || (s <= w.max && w.max - s >= SIZE)
    ensures Holds(Check(w, s).0, if Check(w, s).1 then S else S + {s})
  {
    if s <= w.max {
      assert w.max - (w.max - s) == s;
    }
    if !Check(w, s).1 {
      var out, S' := Check(w, s).0, S + {s};
      forall d | 0 <= d < SIZE ensures out.bits[d] <==> d <= out.max && out.max - d in S' {
        if s > w.max && w.initialized && d >= s - w.max {
          assert out.max - d == w.max - (d - (s - w.max));
        }
      }
    }
  }

  // ---------------------------------------------------------------------------------------------
  // The register in 64-bit words, shifted in place
  // ---------------------------------------------------------------------------------------------

  function Flat(words: seq<Word>): (bits: seq<bool>)
    ensures |bits| == 64 * |words|
  {
    seq(64 * |words|, d requires 0 <= d < 64 * |words| => words[d / 64][d % 64])
  }

  function Shl(w: Word, k: nat): Word {
    seq(64, i requires 0 <= i < 64 => i >= k && w[i - k])
  }

  function Shr(w: Word, k: nat): Word {
    seq(64, i requires 0 <= i < 64 => i + k < 64 && w[i + k])
  }

  lemma FlatBit(words: seq<Word>, i: nat, b: nat)
    requires i < |words| && b < 64
    ensures Flat(words)[64 * i + b] == words[i][b]
  {
    assert (64 * i + b) / 64 == i && (64 * i + b) % 64 == b;
  }

  lemma FlatUpdate(words: seq<Word>, i: nat, b: nat)
    requires i < |words| && b < 64
    ensures Flat(words[i := Or(words[i], Mask(b))]) == Flat(words)[64 * i + b := true]
  {
    var out := words[i := Or(words[i], Mask(b))];
    forall d | 0 <= d < 64 * |words| ensures Flat(out)[d] == Flat(words)[64 * i + b := true][d] {
      assert d == 64 * (d / 64) + d % 64;
    }
  }

  /** What word `i` receives from the word below it. */
  function CarryInto(words: seq<Word>, i: nat, k: nat): Word
    requires i <= |words| && k <= 64
  {
    if i == 0 then Zero() else Shr(words[i - 1], 64 - k)
  }

  function Carried(words: seq<Word>, i: nat, k: nat): Word
    requires i < |words| && k <= 64
  {
    Or(Shl(words[i], k), CarryInto(words, i, k))
  }

  lemma CarriedByNothing(words: seq<Word>, i: nat)
    requires i < |words|
    ensures Carried(words, i, 0) == words[i]
  {}

  lemma CarriedBit(words: seq<Word>, i: nat, k: nat, b: nat)
    requires i < |words| && k < 64 && b < 64
    ensures Carried(words, i, k)[b] <==>
            if b >= k then words[i][b - k] else i > 0 && words[i - 1][b + 64 - k]
  {}

  /** Moving whole words and then carrying bits moves the flat register by 64 times the words plus the bits. */
  lemma ShiftedFlat(was: seq<Word>, mid: seq<Word>, now: seq<Word>, wordShift: nat, bitShift: nat)
    requires |was| == |mid| == |now| && wordShift < |was| && bitShift < 64
    requires forall i :: 0 <= i < |mid| ==> mid[i] == if i >= wordShift then was[i - wordShift] else Zero()
    requires forall i :: 0 <= i < |now| ==> now[i] == Carried(mid, i, bitShift)
    ensures Flat(now) == ShiftLeft(Flat(was), 64 * wordShift + bitShift)
  {
    hide Carried, Flat, Zero, ShiftLeft;
    var k := 64 * wordShift + bitShift;
    forall d | 0 <= d < |Flat(now)| ensures Flat(now)[d] <==> d >= k && Flat(was)[d - k] {
      var i, b := d / 64, d % 64;
      assert now[i] == Carried(mid, i, bitShift);
      ShiftedFlatBit(was, mid, now, wordShift, bitShift, i, b);
    }
    ShiftLeftIs(Flat(now), Flat(was), k);
  }

  lemma ShiftLeftIs(a: seq<bool>, b: seq<bool>, k: nat)
    requires |a| == |b| && forall d :: 0 <= d < |a| ==> (a[d] <==> d >= k && b[d - k])
    ensures a == ShiftLeft(b, k)
  {}

  lemma ShiftedFlatBit(was: seq<Word>, mid: seq<Word>, now: seq<Word>, wordShift: nat, bitShift: nat, i: nat, b: nat)
    requires |was| == |mid| == |now| && wordShift < |was| && bitShift < 64 && i < |was| && b < 64
    requires forall i :: 0 <= i < |mid| ==> mid[i] == if i >= wordShift then was[i - wordShift] else Zero()
    requires now[i] == Carried(mid, i, bitShift)
    ensures var d, k := 64 * i + b, 64 * wordShift + bitShift;
            Flat(now)[d] <==> d >= k && Flat(was)[d - k]
  {
    hide Carried, Flat, Zero;
    FlatBit(now, i, b);
    assert mid[i] == if i >= wordShift then was[i - wordShift] else Zero();
    assert i > 0 ==> mid[i - 1] == if i - 1 >= wordShift then was[i - 1 - wordShift] else Zero();
    ShiftedBit(was, mid, wordShift, bitShift, i, b);
  }

  /** Bit b of word i after both moves, from the words i and i - 1 that the whole-word move left. */
  lemma ShiftedBit(was: seq<Word>, mid: seq<Word>, wordShift: nat, bitShift: nat, i: nat, b: nat)
    requires |was| == |mid| && wordShift < |was| && bitShift < 64 && i < |was| && b < 64
    requires mid[i] == if i >= wordShift then was[i - wordShift] else Zero()
    requires i > 0 ==> mid[i - 1] == if i - 1 >= wordShift then was[i - 1 - wordShift] else Zero()
    ensures var d, k := 64 * i + b, 64 * wordShift + bitShift;
            Carried(mid, i, bitShift)[b] <==> d >= k && Flat(was)[d - k]
  {
    CarriedBit(mid, i, bitShift, b);
    hide Carried, Flat, Zero;
    var d, k := 64 * i + b, 64 * wordShift + bitShift;
    if b >= bitShift {
      assert d >= k <==> i >= wordShift;
      if i >= wordShift {
        ShiftedIndex(was, i, wordShift, b, bitShift, i - wordShift, b - bitShift);
      } else {
        ZeroBit(b - bitShift);
      }
    } else {
      assert d >= k <==> i > wordShift;
      if i > wordShift {
        ShiftedIndex(was, i, wordShift, b, bitShift, i - 1 - wordShift, b + 64 - bitShift);
      } else {
        ZeroBit(b + 64 - bitShift);
      }
    }
  }

  lemma ZeroBit(b: nat)
    requires b < 64
    ensures !Zero()[b]
  {}

  lemma ShiftedIndex(was: seq<Word>, i: nat, wordShift: nat, b: nat, bitShift: nat, j: nat, c: nat)
    requires j < |was| && c < 64 && 64 * j + c == (64 * i + b) - (64 * wordShift + bitShift)
    ensures Flat(was)[(64 * i + b) - (64 * wordShift + bitShift)] == was[j][c]
  {
    FlatBit(was, j, c);
  }

  class AntiReplayWindow {
    const bitmap: array<Word>
    var maxSeq: nat
    var initialized: bool

    ghost function State(): Window
      reads this, bitmap
    {
      Window(maxSeq, Flat(bitmap[..]), initialized)
    }

    constructor ()
      ensures fresh(bitmap) && bitmap.Length == WORDS && State() == Start()
    {
      bitmap := new Word[WORDS](_ => Zero());
      maxSeq := 0;
      initialized := false;
      new;
      assert Flat(bitmap[..]) == Start().bits;
    }

    /** `bitmap[i] = bitmap[i - wordShift]` downwards, then zeros below. */
    method ShiftWords(wordShift: nat)
      requires bitmap.Length == WORDS && wordShift < WORDS
      modifies bitmap
      ensures forall i :: 0 <= i < WORDS ==> bitmap[i] == if i >= wordShift then old(bitmap[i - wordShift]) else Zero()
    {
      if wordShift > 0 {
        var i := WORDS;
        while i > wordShift
          invariant wordShift <= i <= WORDS
          invariant forall j :: 0 <= j < i ==> bitmap[j] == old(bitmap[j])
          invariant forall j :: i <= j < WORDS ==> bitmap[j] == old(bitmap[j - wordShift])
        {
          i := i - 1;
          bitmap[i] := bitmap[i - wordShift];
        }
        i := 0;
        while i < wordShift
          invariant 0 <= i <= wordShift
          invariant forall j :: 0 <= j < i ==> bitmap[j] == Zero()
          invariant forall j :: wordShift <= j < WORDS ==> bitmap[j] == old(bitmap[j - wordShift])
        {
          bitmap[i] := Zero();
          i := i + 1;
        }
      }
    }

    /** The carry loop: each word takes the top bits of the one below it. */
    method ShiftBits(bitShift: nat)
      requires bitmap.Length == WORDS && bitShift < 64
      modifies bitmap
      ensures forall i :: 0 <= i < WORDS ==> bitmap[i] == Carried(old(bitmap[..]), i, bitShift)
    {
      hide Or, Shl, Shr, Zero;
      ghost var was := bitmap[..];
      if bitShift > 0 {
        var carry := Zero();
        var i := 0;
        while i < WORDS
          invariant 0 <= i <= WORDS
          invariant carry == CarryInto(was, i, bitShift)
          invariant forall j :: i <= j < WORDS ==> bitmap[j] == was[j]
          invariant forall j :: 0 <= j < i ==> bitmap[j] == Carried(was, j, bitShift)
        {
          var newCarry := Shr(bitmap[i], 64 - bitShift);
          bitmap[i] := Or(Shl(bitmap[i], bitShift), carry);
          carry := newCarry;
          i := i + 1;
        }
      } else {
        forall i | 0 <= i < WORDS ensures bitmap[i] == Carried(was, i, 0) { CarriedByNothing(was, i); }
      }
    }

    method Shift(diff: nat)
      requires bitmap.Length == WORDS && diff < SIZE
      modifies bitmap
      ensures Flat(bitmap[..]) == ShiftLeft(old(Flat(bitmap[..])), diff)
    {
      hide Flat, Carried, ShiftLeft;
      ghost var was := bitmap[..];
      var wordShift, bitShift := diff / 64, diff % 64;
      assert diff == 64 * wordShift + bitShift;
      ShiftWords(wordShift);
      ghost var mid := bitmap[..];
      ShiftBits(bitShift);
      ShiftedFlat(was, mid, bitmap[..], wordShift, bitShift);
    }

    method CheckAndUpdate(s: nat) returns (rejected: bool)
      requires bitmap.Length == WORDS
      modifies this, bitmap
      ensures (State(), rejected) == Check(old(State()), s)
    {
      ghost var was := bitmap[..];
      if s == 0 { return true; }
      if !initialized {
        maxSeq := s;
        bitmap[0] := Mask(0);
        initialized := true;
        assert Flat(bitmap[..]) == seq(64, d => d == 0) + Flat(was)[64..];
        return false;
      }
      if s > maxSeq {
        var diff := s - maxSeq;
        if diff < SIZE {
          Shift(diff);
        } else {
          forall i | 0 <= i < WORDS { bitmap[i] := Zero(); }
          assert Flat(bitmap[..]) == seq(SIZE, _ => false);
        }
        FlatUpdate(bitmap[..], 0, 0);
        ghost var moved := bitmap[..];
        bitmap[0] := Or(bitmap[0], Mask(0));
        assert bitmap[..] == moved[0 := Or(moved[0], Mask(0))];
        maxSeq := s;
        return false;
      }
      var diff := maxSeq - s;
      if diff >= SIZE { return true; }
      var wordIdx, bitIdx := diff / 64, diff % 64;
      assert diff == 64 * wordIdx + bitIdx;
      AndMask(bitmap[wordIdx], bitIdx);
      FlatBit(was, wordIdx, bitIdx);
      FlatUpdate(was, wordIdx, bitIdx);
      if And(bitmap[wordIdx], Mask(bitIdx)) != Zero() { return true; }
      bitmap[wordIdx] := Or(bitmap[wordIdx], Mask(bitIdx));
      assert bitmap[..] == was[wordIdx := Or(was[wordIdx], Mask(bitIdx))];
      return false;
    }
  }

  // ---------------------------------------------------------------------------------------------
  // Ring against shift register
  // ---------------------------------------------------------------------------------------------

  /** What the two keep while they are fed the same numbers. */
  ghost predicate Together(r: Ring, R: set<nat>, w: Window, S: set<nat>) {
    && |r.words| == WORDS
    && Represents(r, R) && Holds(w, S)
    && r.last == w.max
    && R <= S && (forall x :: x in S && x !in R ==> TooOld(r.last, WORDS, x))
  }

  function RingStep(r: Ring, s: nat): (out: Ring)
    requires |r.words| > 1
    ensures |out.words| == |r.words|
  {
    if Peek(r, s) then r else Commit(r, s)
  }

  /**
   One number: whatever the ring accepts the register accepts, and if only the register does, the
   number is 1985 to 2047 behind the maximum.
   */
  lemma StepTogether(r: Ring, R: set<nat>, w: Window, S: set<nat>, s: nat)
    requires Together(r, R, w, S)
    ensures !Peek(r, s) ==> !Check(w, s).1
    ensures Peek(r, s) && !Check(w, s).1 <==>
            s != 0 && s !in S && s <= w.max && w.max - s < SIZE && w.max / 64 - s / 64 >= WORDS
    ensures Peek(r, s) && !Check(w, s).1 ==> 1985 <= w.max - s <= 2047
    ensures Together(RingStep(r, s), if Peek(r, s) then R else R + {s},
                     Check(w, s).0, if Check(w, s).1 then S else S + {s})
  {
    PeekExact(r, R, s);
    CheckExact(w, S, s);
    CommitRepresents(r, R, s);
  }

  /** The states after the same stream. */
  function RunRing(r: Ring, xs: seq<nat>): (out: Ring)
    requires |r.words| > 1
    ensures |out.words| == |r.words|
    decreases |xs|
  {
    if xs == [] then r else RunRing(RingStep(r, xs[0]), xs[1..])
  }

  function RunWindow(w: Window, xs: seq<nat>): (out: Window)
    requires |w.bits| == SIZE
    ensures |out.bits| == SIZE
    decreases |xs|
  {
    if xs == [] then w else RunWindow(Check(w, xs[0]).0, xs[1..])
  }

  lemma {:induction false} RunTogether(r: Ring, R: set<nat>, w: Window, S: set<nat>,
        xs: seq<nat>) returns (R': set<nat>, S': set<nat>)
    requires Together(r, R, w, S)
    ensures Together(RunRing(r, xs), R', RunWindow(w, xs), S')
    decreases |xs|
  {
    if xs == [] {
      R', S' := R, S;
    } else {
      var s := xs[0];
      StepTogether(r, R, w, S, s);
      R', S' := RunTogether(RingStep(r, s), if Peek(r, s) then R else R + {s}, Check(w, s).0,
                            if Check(w, s).1 then S else S + {s}, xs[1..]);
    }
  }

  /** After any common stream: the same maximum, and the answers to the next number compare as above. */
  lemma RingWithinWindow(xs: seq<nat>, s: nat)
    ensures var r, w := RunRing(Fresh(WORDS), xs), RunWindow(Start(), xs);
            && r.last == w.max
            && (!Peek(r, s) ==> !Check(w, s).1)
            && (Peek(r, s) && !Check(w, s).1 ==> 1985 <= w.max - s <= 2047)
  {
    FreshRepresents(WORDS);
    StartHolds();
    var R, S := RunTogether(Fresh(WORDS), {}, Start(), {}, xs);
    StepTogether(RunRing(Fresh(WORDS), xs), R, RunWindow(Start(), xs), S, s);
  }

  /** They do differ: after 2048 the register still takes 1, the ring does not. */
  lemma WindowsDiffer()
    ensures var r, w := RunRing(Fresh(WORDS), [2048]), RunWindow(Start(), [2048]);
            Peek(r, 1) && !Check(w, 1).1
  {
    FreshRepresents(WORDS);
    StartHolds();
    var xs: seq<nat> := [2048];
    assert xs[1..] == [];
    StepTogether(Fresh(WORDS), {}, Start(), {}, 2048);
    PeekExact(Fresh(WORDS), {}, 2048);
    CheckExact(Start(), {}, 2048);
    StepTogether(RingStep(Fresh(WORDS), 2048), {2048}, Check(Start(), 2048).0, {2048}, 1);
  }
}
