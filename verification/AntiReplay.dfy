/**
 The anti-replay ring of network_security.h, with any number of 64-bit words above one, proved to
 implement a set of sequence numbers, and the workers that check and commit on it in separate steps.
 A word is the sequence of its 64 bits, least significant first.
 */
module AntiReplay {
  type Word = w: seq<bool> | |w| == 64 witness seq(64, _ => false)

  function Zero(): Word {
    seq(64, _ => false)
  }

  /** `1ULL << k`. */
  function Mask(k: nat): Word
    requires k < 64
  {
    seq(64, i => i == k)
  }

  function Or(a: Word, b: Word): Word {
    seq(64, i requires 0 <= i < 64 => a[i] || b[i])
  }

  function And(a: Word, b: Word): Word {
    seq(64, i requires 0 <= i < 64 => a[i] && b[i])
  }

  lemma AndMask(w: Word, k: nat)
    requires k < 64
    ensures And(w, Mask(k)) != Zero() <==> w[k]
  {
    if w[k] {
      assert And(w, Mask(k))[k] && !Zero()[k];
    } else {
      assert And(w, Mask(k)) == Zero();
    }
  }

  // ---------------------------------------------------------------------------------------------
  // The ring
  // ---------------------------------------------------------------------------------------------

  datatype Ring = Ring(last: nat, words: seq<Word>)

  function Fresh(n: nat): (r: Ring)
    ensures |r.words| == n
  {
    Ring(0, seq(n, _ => Zero()))
  }

  predicate TooOld(last: nat, n: nat, s: nat) {
    s <= last && last / 64 - s / 64 >= n
  }

  /** check_peek: true rejects. `& (WORDS - 1)` of a power of two is `% WORDS`. */
  predicate Peek(r: Ring, s: nat)
    requires |r.words| > 1
  {
    if s == 0 then true
    else if s > r.last then false
    else if r.last - s >= |r.words| * 64 || r.last / 64 - s / 64 >= |r.words| then true
    else And(r.words[s / 64 % |r.words|], Mask(s % 64)) != Zero()
  }

  /** The words of the ring after clearing word numbers from..=to. */
  function ClearWords(words: seq<Word>, from: nat, to: nat): (out: seq<Word>)
    requires |words| > 0
    ensures |out| == |words|
    decreases if from > to then 0 else to + 1 - from
  {
    if from > to then words else ClearWords(words[from % |words| := Zero()], from + 1, to)
  }

  function SetBit(words: seq<Word>, s: nat): (out: seq<Word>)
    requires |words| > 0
    ensures |out| == |words|
  {
    var i := s / 64 % |words|;
    words[i := Or(words[i], Mask(s % 64))]
  }

  /** update_commit. */
  function Commit(r: Ring, s: nat): (out: Ring)
    requires |r.words| > 1
    ensures |out.words| == |r.words|
  {
    if s == 0 then r
    else if s > r.last then
      var cleared := if s - r.last >= |r.words| * 64 then seq(|r.words|, _ => Zero())
                     else ClearWords(r.words, r.last / 64 + 1, s / 64);
      Ring(s, SetBit(cleared, s))
    else if r.last - s < |r.words| * 64 && r.last / 64 - s / 64 < |r.words| then Ring(r.last, SetBit(r.words, s))
    else r
  }

  /** `last` is the greatest number of `S`, or 0 when there is none. */
  ghost predicate IsLast(last: nat, S: set<nat>) {
    0 !in S && (forall x :: x in S ==> x <= last) && (last == 0 <==> S == {}) && (S != {} ==> last in S)
  }

  /**
   The ring holds the set S: for each of the last |words| word numbers w, slot w mod |words| is
   exactly the part of S in word w; slots no word has reached yet are empty.
   */
  ghost predicate Represents(r: Ring, S: set<nat>) {
    && |r.words| > 1
    && IsLast(r.last, S)
    && (forall w: nat, b: nat :: r.last / 64 - |r.words| < w <= r.last / 64 && b < 64 ==>
          (r.words[w % |r.words|][b] <==> w * 64 + b in S))
    && (forall i: nat :: r.last / 64 < i < |r.words| ==> r.words[i] == Zero())
  }

  lemma Multiples(k: int, n: int)
    requires n > 0
    ensures k >= 1 ==> k * n >= n
    ensures k <= -1 ==> k * n <= -n
  {}

  /** Numbers closer than n with the same remainder are the same. */
  lemma SameRemainder(a: int, b: int, n: int)
    requires n > 0 && -n < b - a < n && a % n == b % n
    ensures a == b
  {
    var k := b / n - a / n;
    assert b - a == k * n;
    Multiples(k, n);
  }

  lemma {:induction false} ClearWordsSlot(words: seq<Word>, from: nat, to: nat, i: nat)
    requires i < |words|
    ensures (forall w: nat :: from <= w <= to ==> w % |words| != i) ==> ClearWords(words, from, to)[i] == words[i]
    ensures words[i] == Zero() ==> ClearWords(words, from, to)[i] == Zero()
    ensures (exists w: nat :: from <= w <= to && w % |words| == i) ==> ClearWords(words, from, to)[i] == Zero()
    decreases if from > to then 0 else to + 1 - from
  {
    if from <= to {
      ClearWordsSlot(words[from % |words| := Zero()], from + 1, to, i);
      if exists w: nat :: from <= w <= to && w % |words| == i {
        var w: nat :| from <= w <= to && w % |words| == i;
        if w > from { assert from + 1 <= w; }
      }
    }
  }

  lemma SmallRemainder(a: nat, n: nat)
    requires a < n
    ensures a % n == a
  {}

  lemma PeekExact(r: Ring, S: set<nat>, s: nat)
    requires Represents(r, S)
    ensures Peek(r, s) <==> s == 0 || s in S || TooOld(r.last, |r.words|, s)
  {
    if 0 < s <= r.last && r.last / 64 - s / 64 < |r.words| {
      AndMask(r.words[s / 64 % |r.words|], s % 64);
      assert s == s / 64 * 64 + s % 64;
    }
  }

  lemma SetBitSlot(words: seq<Word>, s: nat, i: nat, b: nat)
    requires |words| > 0 && i < |words| && b < 64
    ensures SetBit(words, s)[i][b] <==> words[i][b] || (i == s / 64 % |words| && b == s % 64)
  {}

  /** A commit adds its number to the set. */
  lemma CommitRepresents(r: Ring, S: set<nat>, s: nat)
    requires Represents(r, S)
    ensures Represents(Commit(r, s), if s == 0 then S else S + {s})
  {
    var n := |r.words|;
    if s > r.last {
      CommitNewer(r, S, s);
    } else if s != 0 && !TooOld(r.last, n, s) {
      CommitInside(r, S, s);
    } else if s != 0 {
      forall w: nat, b: nat | r.last / 64 - n < w <= r.last / 64 && b < 64
        ensures r.words[w % n][b] <==> w * 64 + b in S + {s}
      {
        assert (w * 64 + b) / 64 == w;
      }
    }
  }

  lemma CommitInside(r: Ring, S: set<nat>, s: nat)
    requires Represents(r, S) && 0 < s <= r.last && !TooOld(r.last, |r.words|, s)
    ensures Represents(Commit(r, s), S + {s})
  {
    var n, out := |r.words|, Commit(r, s);
    assert out == Ring(r.last, SetBit(r.words, s));
    forall w: nat, b: nat | r.last / 64 - n < w <= r.last / 64 && b < 64
      ensures out.words[w % n][b] <==> w * 64 + b in S + {s}
    {
      SetBitSlot(r.words, s, w % n, b);
      if w % n == s / 64 % n { SameRemainder(w, s / 64, n); }
      assert (w * 64 + b) / 64 == w && (w * 64 + b) % 64 == b;
    }
    forall i: nat | r.last / 64 < i < n ensures out.words[i] == Zero() {
      SmallRemainder(s / 64, n);
    }
  }

  lemma CommitNewer(r: Ring, S: set<nat>, s: nat)
    requires Represents(r, S) && s > r.last
    ensures Represents(Commit(r, s), S + {s})
  {
    var n, out := |r.words|, Commit(r, s);
    var t, t' := r.last / 64, s / 64;
    var cleared := if s - r.last >= n * 64 then seq(n, _ => Zero()) else ClearWords(r.words, t + 1, t');
    assert out == Ring(s, SetBit(cleared, s));
    forall w: nat, b: nat | t' - n < w <= t' && b < 64
      ensures out.words[w % n][b] <==> w * 64 + b in S + {s}
    {
      SetBitSlot(cleared, s, w % n, b);
      if w % n == t' % n { SameRemainder(w, t', n); }
      assert (w * 64 + b) / 64 == w && (w * 64 + b) % 64 == b;
      ClearedSlot(r, S, s, w, b);
    }
    forall i: nat | t' < i < n ensures out.words[i] == Zero() {
      SmallRemainder(t', n);
      if s - r.last < n * 64 { ClearWordsSlot(r.words, t + 1, t', i); }
    }
  }

  /** After clearing, every slot of the new window holds exactly the old set's part of its word. */
  lemma ClearedSlot(r: Ring, S: set<nat>, s: nat, w: nat, b: nat)
    requires Represents(r, S) && s > r.last && s / 64 - |r.words| < w <= s / 64 && b < 64
    ensures var n := |r.words|;
            var cleared := if s - r.last >= n * 64 then seq(n, _ => Zero())
                           else ClearWords(r.words, r.last / 64 + 1, s / 64);
            cleared[w % n][b] <==> w * 64 + b in S
  {
    var n, t := |r.words|, r.last / 64;
    if w > t {
      assert w * 64 + b > r.last;
      if s - r.last < n * 64 { ClearWordsSlot(r.words, t + 1, s / 64, w % n); }
    } else {
      hide SetBit;
      ClearWordsSlot(r.words, t + 1, s / 64, w % n);
      forall v: nat | t + 1 <= v <= s / 64 ensures v % n != w % n {
        if v % n == w % n { SameRemainder(w, v, n); }
      }
    }
  }

  lemma FreshRepresents(n: nat)
    requires n > 1
    ensures Represents(Fresh(n), {})
  {}

  /** The ring is determined, bit for bit, by the set it holds. */
  lemma RingIsCanonical(r: Ring, q: Ring, S: set<nat>)
    requires Represents(r, S) && Represents(q, S) && |r.words| == |q.words|
    ensures r == q
  {
    var n, t := |r.words|, r.last / 64;
    assert r.last == q.last;
    forall i | 0 <= i < n ensures r.words[i] == q.words[i] {
      if i <= t {
        var w := WordOfSlot(i, t, n);
        forall b | 0 <= b < 64 ensures r.words[i][b] == q.words[i][b] {
          assert r.words[w % n][b] <==> w * 64 + b in S;
          assert q.words[w % n][b] <==> w * 64 + b in S;
        }
      }
    }
  }

  /** The last word up to `t` that slot i holds. */
  lemma WordOfSlot(i: nat, t: nat, n: nat) returns (w: nat)
    requires i < n && i <= t
    ensures t - n < w <= t && w % n == i
  {
    var k := (t - i) / n;
    assert t - i == k * n + (t - i) % n;
    RemainderOfStep(i, k, n);
    w := i + k * n;
  }

  lemma RemainderOfStep(i: nat, k: int, n: nat)
    requires i < n && k >= 0
    ensures i + k * n >= 0 && (i + k * n) % n == i
  {
    Multiples(k, n);
    var x := i + k * n;
    assert x == (x / n) * n + x % n;
    assert (x / n - k) * n == i - x % n;
    Multiples(x / n - k, n);
  }

  function CommitAll(r: Ring, xs: seq<nat>): (out: Ring)
    requires |r.words| > 1
    ensures |out.words| == |r.words|
    decreases |xs|
  {
    if xs == [] then r else CommitAll(Commit(r, xs[0]), xs[1..])
  }

  function Numbers(xs: seq<nat>): set<nat> {
    set x | x in xs && x != 0
  }

  lemma {:induction false} CommitAllRepresents(r: Ring, S: set<nat>, xs: seq<nat>)
    requires Represents(r, S)
    ensures Represents(CommitAll(r, xs), S + Numbers(xs))
    decreases |xs|
  {
    if xs == [] {
      assert S + Numbers(xs) == S;
    } else {
      CommitRepresents(r, S, xs[0]);
      var S' := if xs[0] == 0 then S else S + {xs[0]};
      CommitAllRepresents(Commit(r, xs[0]), S', xs[1..]);
      assert S' + Numbers(xs[1..]) == S + Numbers(xs);
    }
  }

  /** Commits commute and repeat harmlessly: only the set of committed numbers matters. */
  lemma CommitOrderIrrelevant(n: nat, xs: seq<nat>, ys: seq<nat>)
    requires n > 1 && Numbers(xs) == Numbers(ys)
    ensures CommitAll(Fresh(n), xs) == CommitAll(Fresh(n), ys)
  {
    FreshRepresents(n);
    CommitAllRepresents(Fresh(n), {}, xs);
    CommitAllRepresents(Fresh(n), {}, ys);
    assert {} + Numbers(xs) == {} + Numbers(ys);
    RingIsCanonical(CommitAll(Fresh(n), xs), CommitAll(Fresh(n), ys), {} + Numbers(xs));
  }

  /** check_and_update on a stream: the numbers it lets through, in order. */
  function Accepted(r: Ring, xs: seq<nat>): seq<nat>
    requires |r.words| > 1
    decreases |xs|
  {
    if xs == [] then []
    else if Peek(r, xs[0]) then Accepted(r, xs[1..])
    else [xs[0]] + Accepted(Commit(r, xs[0]), xs[1..])
  }

  /** No number is let through twice, nor one already committed. */
  lemma {:induction false} AcceptedOnce(r: Ring, S: set<nat>, xs: seq<nat>)
    requires Represents(r, S)
    ensures forall i :: 0 <= i < |Accepted(r, xs)| ==> Accepted(r, xs)[i] !in S
    ensures forall i, j :: 0 <= i < j < |Accepted(r, xs)| ==> Accepted(r, xs)[i] != Accepted(r, xs)[j]
    decreases |xs|
  {
    if xs != [] {
      PeekExact(r, S, xs[0]);
      CommitRepresents(r, S, xs[0]);
      if Peek(r, xs[0]) {
        AcceptedOnce(r, S, xs[1..]);
      } else {
        AcceptedOnce(Commit(r, xs[0]), S + {xs[0]}, xs[1..]);
      }
    }
  }

  /** A fresh non-zero number at most (WORDS - 1) * 64 behind the maximum is never rejected. */
  lemma FreshIsAccepted(r: Ring, S: set<nat>, s: nat)
    requires Represents(r, S) && s != 0 && s !in S && s + (|r.words| - 1) * 64 >= r.last
    ensures !Peek(r, s)
  {
    PeekExact(r, S, s);
    if s <= r.last {
      var n := |r.words| - 1;
      assert r.last / 64 <= (s + n * 64) / 64 == s / 64 + n;
    }
  }

  // ---------------------------------------------------------------------------------------------
  // Several workers: check, decrypt and commit as separate steps
  // ---------------------------------------------------------------------------------------------

  type Worker = nat

  /** The filter, and the number each worker has checked and not yet committed or given up. */
  datatype Data = Data(ring: Ring, flight: map<Worker, nat>)

  /** One locked section, or a failed decryption; a worker holds one packet at a time. */
  datatype Event = Look(w: Worker, s: nat) | Deliver(w: Worker) | Drop(w: Worker)

  function Step(d: Data, e: Event): (d': Data)
    requires |d.ring.words| > 1
    ensures |d'.ring.words| > 1
  {
    match e
    case Look(w, s) => if w in d.flight || Peek(d.ring, s) then d else d.(flight := d.flight[w := s])
    case Deliver(w) => if w in d.flight then Data(Commit(d.ring, d.flight[w]), d.flight - {w}) else d
    case Drop(w) => d.(flight := d.flight - {w})
  }

  /** The numbers of the packets let through, in order. */
  function Delivered(d: Data, es: seq<Event>): seq<nat>
    requires |d.ring.words| > 1
    decreases |es|
  {
    if es == [] then []
    else
      (if es[0].Deliver? && es[0].w in d.flight then [d.flight[es[0].w]] else [])
      + Delivered(Step(d, es[0]), es[1..])
  }

  /** The packet the worker holds will be let through. */
  predicate WillDeliver(w: Worker, es: seq<Event>)
    decreases |es|
  {
    es != [] && es[0] != Drop(w) && (es[0] == Deliver(w) || WillDeliver(w, es[1..]))
  }

  /** Somewhere a number is let through while another worker holds it too, and that one delivers later. */
  ghost predicate Overlaps(d: Data, es: seq<Event>)
    requires |d.ring.words| > 1
    decreases |es|
  {
    es != [] &&
    ((es[0].Deliver? && es[0].w in d.flight &&
      exists u :: u in d.flight && u != es[0].w && d.flight[u] == d.flight[es[0].w] && WillDeliver(u, es[1..]))
     || Overlaps(Step(d, es[0]), es[1..]))
  }

  predicate NewAndDistinct(S: set<nat>, xs: seq<nat>) {
    && (forall i :: 0 <= i < |xs| ==> xs[i] !in S)
    && (forall i, j :: 0 <= i < j < |xs| ==> xs[i] != xs[j])
  }

  /** A worker holds a number committed already, and will deliver it. */
  ghost predicate Late(d: Data, S: set<nat>, es: seq<Event>) {
    exists u :: u in d.flight && d.flight[u] in S && WillDeliver(u, es)
  }

  ghost predicate Ready(d: Data, S: set<nat>) {
    Represents(d.ring, S) && forall u :: u in d.flight ==> d.flight[u] != 0
  }

  lemma StepReady(d: Data, S: set<nat>, e: Event)
    requires Ready(d, S)
    ensures e.Deliver? && e.w in d.flight ==> Ready(Step(d, e), S + {d.flight[e.w]})
    ensures !(e.Deliver? && e.w in d.flight) ==> Ready(Step(d, e), S)
    ensures e.Look? && e.w !in d.flight && e.w in Step(d, e).flight ==> e.s !in S
  {
    hide Represents, Peek, Commit;
    match e {
      case Look(w, s) => PeekExact(d.ring, S, s);
      case Deliver(w) => if w in d.flight { CommitRepresents(d.ring, S, d.flight[w]); }
      case Drop(w) =>
    }
  }

  lemma DistinctHead(S: set<nat>, x: nat, xs: seq<nat>)
    ensures NewAndDistinct(S, [x] + xs) <==> x !in S && NewAndDistinct(S + {x}, xs)
  {
    var ys := [x] + xs;
    assert forall i :: 0 <= i < |xs| ==> ys[i + 1] == xs[i];
    if NewAndDistinct(S, ys) {
      assert ys[0] == x;
      assert NewAndDistinct(S + {x}, xs);
    }
    if x !in S && NewAndDistinct(S + {x}, xs) {
      assert forall i :: 0 <= i < |ys| ==> ys[i] == (if i == 0 then x else xs[i - 1]);
    }
  }

  /** The head of a schedule, in terms of what holds after it. */
  lemma LateStep(d: Data, S: set<nat>, es: seq<Event>)
    requires Ready(d, S) && es != []
    ensures var d' := Step(d, es[0]);
            if es[0].Deliver? && es[0].w in d.flight then
              var x := d.flight[es[0].w];
              Late(d, S, es) || Overlaps(d, es) <==> x in S || Late(d', S + {x}, es[1..]) || Overlaps(d', es[1..])
            else
              Late(d, S, es) || Overlaps(d, es) <==> Late(d', S, es[1..]) || Overlaps(d', es[1..])
  {
    StepReady(d, S, es[0]);
    hide Ready, Peek, Commit;
    var d' := Step(d, es[0]);
    if es[0].Deliver? && es[0].w in d.flight {
      var w := es[0].w;
      assert forall u :: u in d'.flight ==> u != w && (WillDeliver(u, es) <==> WillDeliver(u, es[1..]));
      assert WillDeliver(w, es);
    } else {
      assert forall u :: u in d'.flight && u in d.flight ==> (WillDeliver(u, es) <==> WillDeliver(u, es[1..]));
      assert forall u :: u in d.flight && u !in d'.flight ==> !WillDeliver(u, es);
    }
  }

  /**
   With any number of workers interleaving their checks and commits, no number is let through twice, nor one
   committed before, if and only if no delivery overlaps with another worker's check of the same number.
   */
  lemma {:induction false} InterleavedOnceExactly(d: Data, S: set<nat>, es: seq<Event>)
    requires Ready(d, S)
    ensures NewAndDistinct(S, Delivered(d, es)) <==> !Late(d, S, es) && !Overlaps(d, es)
    decreases |es|
  {
    if es != [] {
      StepReady(d, S, es[0]);
      LateStep(d, S, es);
      hide Ready, Late, Overlaps, NewAndDistinct, Step;
      var d' := Step(d, es[0]);
      if es[0].Deliver? && es[0].w in d.flight {
        var x := d.flight[es[0].w];
        InterleavedOnceExactly(d', S + {x}, es[1..]);
        DistinctHead(S, x, Delivered(d', es[1..]));
      } else {
        InterleavedOnceExactly(d', S, es[1..]);
        assert Delivered(d, es) == Delivered(d', es[1..]);
      }
    }
  }

  /** From an empty filter and idle workers. */
  lemma WorkersOnceExactly(n: nat, es: seq<Event>)
    requires n > 1
    ensures var d := Data(Fresh(n), map[]);
            NewAndDistinct({}, Delivered(d, es)) <==> !Overlaps(d, es)
  {
    FreshRepresents(n);
    InterleavedOnceExactly(Data(Fresh(n), map[]), {}, es);
  }

  /** Two workers that both check before either commits let the same packet through twice. */
  lemma TwoWorkersDeliverTwice(n: nat, s: nat)
    requires n > 1 && s != 0
    ensures var es := [Look(1, s), Look(2, s), Deliver(1), Deliver(2)];
            Delivered(Data(Fresh(n), map[]), es) == [s, s]
  {
    var es := [Look(1, s), Look(2, s), Deliver(1), Deliver(2)];
    var d := Data(Fresh(n), map[]);
    FreshRepresents(n);
    PeekExact(d.ring, {}, s);
    assert !Peek(d.ring, s);
    hide Peek, Commit, Represents, Fresh;
    var d1 := Step(d, es[0]);
    var d2 := Step(d1, es[1]);
    var d3 := Step(d2, es[2]);
    assert es[1..][1..] == es[2..] && es[2..][1..] == es[3..] && es[3..][1..] == [];
    assert Delivered(d3, es[3..]) == [s] + Delivered(Step(d3, es[3]), []);
    assert Delivered(d2, es[2..]) == [s] + Delivered(d3, es[3..]);
    assert Delivered(d1, es[1..]) == Delivered(d2, es[2..]);
  }

  class AntiReplayFilter {
    var lastSeq: nat
    const bitmap: array<Word>
    ghost var committed: set<nat>

    ghost function State(): Ring
      reads this, bitmap
    {
      Ring(lastSeq, bitmap[..])
    }

    ghost predicate Valid()
      reads this, bitmap
    {
      Represents(State(), committed)
    }

    constructor (words: nat)
      requires words > 1
      ensures Valid() && fresh(bitmap) && bitmap.Length == words && committed == {}
    {
      lastSeq := 0;
      bitmap := new Word[words](_ => Zero());
      committed := {};
      new;
      assert bitmap[..] == Fresh(words).words;
      FreshRepresents(words);
    }

    method Reset()
      requires bitmap.Length > 1
      modifies this, bitmap
      ensures Valid() && committed == {}
    {
      lastSeq := 0;
      forall i | 0 <= i < bitmap.Length { bitmap[i] := Zero(); }
      committed := {};
      assert bitmap[..] == Fresh(bitmap.Length).words;
      FreshRepresents(bitmap.Length);
    }

    /** True rejects: zero, already committed, or in a word the window has left behind. */
    method CheckPeek(s: nat) returns (rejected: bool)
      requires Valid()
      ensures rejected <==> s == 0 || s in committed || TooOld(lastSeq, bitmap.Length, s)
    {
      PeekExact(State(), committed, s);
      if s == 0 { return true; }
      if s > lastSeq { return false; }
      var diff := lastSeq - s;
      if diff >= bitmap.Length * 64 || lastSeq / 64 - s / 64 >= bitmap.Length { return true; }
      var wordIdx := s / 64 % bitmap.Length;
      return And(bitmap[wordIdx], Mask(s % 64)) != Zero();
    }

    /** Empty the words between the old maximum and a newer number. */
    method ClearUpTo(s: nat)
      requires bitmap.Length > 1 && s > lastSeq
      modifies bitmap
      ensures bitmap[..] == if s - lastSeq >= bitmap.Length * 64 then seq(bitmap.Length, _ => Zero())
                            else ClearWords(old(bitmap[..]), lastSeq / 64 + 1, s / 64)
    {
      ghost var was := bitmap[..];
      var diff := s - lastSeq;
      if diff >= bitmap.Length * 64 {
        forall i | 0 <= i < bitmap.Length { bitmap[i] := Zero(); }
      } else {
        var w, currWord := lastSeq / 64 + 1, s / 64;
        while w <= currWord
          invariant lastSeq / 64 + 1 <= w <= currWord + 1
          invariant ClearWords(bitmap[..], w, currWord) == ClearWords(was, lastSeq / 64 + 1, currWord)
        {
          ghost var before := bitmap[..];
          bitmap[w % bitmap.Length] := Zero();
          assert bitmap[..] == before[w % bitmap.Length := Zero()];
          w := w + 1;
        }
      }
    }

    method SetBitOf(s: nat)
      requires bitmap.Length > 0
      modifies bitmap
      ensures bitmap[..] == SetBit(old(bitmap[..]), s)
    {
      var wordIdx := s / 64 % bitmap.Length;
      bitmap[wordIdx] := Or(bitmap[wordIdx], Mask(s % 64));
    }

    method UpdateCommit(s: nat)
      requires Valid()
      modifies this, bitmap
      ensures Valid() && State() == Commit(old(State()), s)
      ensures committed == old(committed) + (if s == 0 then {} else {s})
    {
      CommitRepresents(State(), committed, s);
      assert bitmap.Length > 1;
      hide Represents, SetBit, ClearWords;
      if s == 0 { return; }
      committed := committed + {s};
      if s > lastSeq {
        ClearUpTo(s);
        SetBitOf(s);
        lastSeq := s;
        return;
      }
      var diff := lastSeq - s;
      if diff < bitmap.Length * 64 && lastSeq / 64 - s / 64 < bitmap.Length {
        SetBitOf(s);
      }
    }

    method CheckAndUpdate(s: nat) returns (rejected: bool)
      requires Valid()
      modifies this, bitmap
      ensures Valid()
      ensures rejected <==> s == 0 || s in old(committed) || TooOld(old(lastSeq), bitmap.Length, s)
      ensures committed == old(committed) + (if rejected then {} else {s})
      ensures State() == if rejected then old(State()) else Commit(old(State()), s)
    {
      rejected := CheckPeek(s);
      if !rejected { UpdateCommit(s); }
    }
  }
}
