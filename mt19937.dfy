/** The 32-bit Mersenne Twister of RandomLib: its state of N words is advanced
 *  a whole batch at a time by a twist done in place, and moved back by the
 *  reverse twist; a seed vector is turned into a state by the seed_seq
 *  mixing; saved state is protected by a checksum. */
module Mt19937 {
  import opened ModArith
  import opened Wrappers
  import opened RandomSeed

  /** Words of state. */
  const N: nat := 624
  /** The middle offset of the recurrence. */
  const M: nat := 397
  const MATRIX_A: bv32 := 0x9908_b0df
  /** Only the top bit of the first word takes part in the recurrence. */
  const UPPER: bv32 := 0x8000_0000
  const LOWER: bv32 := 0x7fff_ffff
  /** The pointer value of a generator whose state is not yet computed. */
  const UNINIT: nat := 0xffff_ffff
  /** "MTr0" plus the format version 4. */
  const VERSIONID: bv32 := 0x4d54_7230 + 4

  // ---------------------------------------------------------------------
  // One step of the recurrence and its inverse

  /** The new word from y = (w0 & UPPER) | (w1 & LOWER) and the word M on. */
  function Twist(w0: bv32, w1: bv32, wm: bv32): bv32
  {
    wm ^ (if w1 & 1 != 0 then MATRIX_A else 0) ^ (((w0 & UPPER) | (w1 & LOWER)) >> 1)
  }

  /** Given Twist(w0, w1, wm) ^ wm, rebuild y: the top bit of the xor says
   *  whether MATRIX_A was added, which is also the low bit of y. */
  function Recover(q: bv32): bv32
  {
    var s := q >> 31;
    ((q ^ (if s != 0 then MATRIX_A else 0)) << 1) | s
  }

  /** The upper bit of a joined to the lower bits of b. */
  function Splice(a: bv32, b: bv32): bv32
  {
    (a & UPPER) | (b & LOWER)
  }

  /** y recovered from a new word and the partner it was twisted with. */
  function RecoverFrom(w: bv32, partner: bv32): bv32
  {
    Recover(w ^ partner)
  }

  /** Word 0's low bits agree with the y recovered from the last word and
   *  word M - 1. */
  predicate ConsistentWords(last: bv32, mid: bv32, first: bv32)
  {
    (RecoverFrom(last, mid) ^ first) & LOWER == 0
  }

  /** Recover undoes Twist: y comes back whole. */
  lemma RecoverTwist(w0: bv32, w1: bv32, wm: bv32)
    ensures RecoverFrom(Twist(w0, w1, wm), wm) == Splice(w0, w1)
  {
    var y := Splice(w0, w1);
    TwistOfY(w0, w1, wm, y);
    RecoverY(y);
  }

  /** The magic constant is added exactly when y is odd. */
  function Mag(y: bv32): bv32
  {
    if y & 1 != 0 then MATRIX_A else 0
  }

  lemma TwistOfY(w0: bv32, w1: bv32, wm: bv32, y: bv32)
    requires y == Splice(w0, w1)
    ensures Twist(w0, w1, wm) ^ wm == Mag(y) ^ (y >> 1)
  {
    assert y & 1 == w1 & 1;
  }

  lemma RecoverY(y: bv32)
    ensures Recover(Mag(y) ^ (y >> 1)) == y
  {
    if y & 1 != 0 {
      assert (Mag(y) ^ (y >> 1)) >> 31 == 1;
    } else {
      assert (Mag(y) ^ (y >> 1)) >> 31 == 0;
    }
  }

  /** The word the twist writes last makes word 0 consistent. */
  lemma LowBitsFromTwist(w0: bv32, t0: bv32, wm: bv32, last: bv32)
    requires last == Twist(w0, t0, wm)
    ensures ConsistentWords(last, wm, t0)
  {
    RecoverTwist(w0, t0, wm);
    SpliceLow(w0, t0, RecoverFrom(last, wm));
  }

  /** Restoring a word: its upper bit comes from the y carried along, its
   *  lower bits from the y recovered from the twist it fed. */
  lemma RestoreWord(a: bv32, b: bv32, c: bv32, w: bv32, p: bv32, nxt: bv32)
    requires w == Twist(a, b, c) && p == Splice(b, nxt)
    ensures RecoverFrom(w, c) == Splice(a, b)
    ensures Splice(p, RecoverFrom(w, c)) == b
  {
    RecoverTwist(a, b, c);
    SpliceJoin(b, p, nxt, RecoverFrom(w, c), a);
  }

  /** Word 0 comes back when its low bits are the consistent ones. */
  lemma FinalWord(s0: bv32, s1: bv32, last: bv32, mid: bv32)
    requires ConsistentWords(last, mid, s0)
    ensures Splice(Splice(s0, s1), RecoverFrom(last, mid)) == s0
  {
    FinalSplice(s0, s1, RecoverFrom(last, mid));
  }

  lemma FinalSplice(s0: bv32, s1: bv32, q: bv32)
    requires (q ^ s0) & LOWER == 0
    ensures Splice(Splice(s0, s1), q) == s0
  {
  }

  /** y = Splice(w0, t0) agrees with t0 in its low bits. */
  lemma SpliceLow(w0: bv32, t0: bv32, y: bv32)
    requires y == Splice(w0, t0)
    ensures (y ^ t0) & LOWER == 0
  {
  }

  /** The upper bit of p and the lower bits of y rebuild b when both were
   *  spliced from b. */
  lemma SpliceJoin(b: bv32, p: bv32, nxt: bv32, y: bv32, a: bv32)
    requires p == Splice(b, nxt) && y == Splice(a, b)
    ensures Splice(p, y) == b
  {
  }

  /** Splicing in the recovered low bits always yields a consistent word 0. */
  lemma SpliceConsistent(last: bv32, mid: bv32, x: bv32)
    ensures ConsistentWords(last, mid, Splice(x, RecoverFrom(last, mid)))
  {
    SpliceLowBits(x, RecoverFrom(last, mid));
  }

  lemma SpliceLowBits(x: bv32, q: bv32)
    ensures (q ^ Splice(x, q)) & LOWER == 0
  {
  }

  /** Only the top bit of a word is kept. */
  function MaskUpper(w: bv32): bv32
  {
    w & UPPER
  }

  /** A word whose top bit is set stays nonzero when its low bits are replaced. */
  lemma SpliceUpperNonZero(x: bv32, w: bv32, q: bv32)
    requires x == UPPER || (x == MaskUpper(w) && x != 0)
    ensures Splice(x, q) != 0
  {
  }

  function Or(x: bv32, w: bv32): bv32
  {
    x | w
  }

  lemma OrZero(x: bv32, w: bv32)
    ensures Or(x, w) == 0 <==> x == 0 && w == 0
  {
  }

  // ---------------------------------------------------------------------
  // The forward twist

  /** Word j of the sequence old ++ new, where t is the new words so far. */
  function Ext(s: seq<bv32>, t: seq<bv32>, j: nat): bv32
    requires |s| == N && j < N + |t|
  {
    if j < N then s[j] else t[j - N]
  }

  /** The first i words of the next state: word i of the new state is the
   *  twist of words i, i + 1 and i + M of old ++ new, which is what the in-place
   *  loop reads since the words before i have already been replaced. */
  function Forward(s: seq<bv32>, i: nat): (t: seq<bv32>)
    requires |s| == N && i <= N
    ensures |t| == i
  {
    if i == 0 then []
    else
      var t := Forward(s, i - 1);
      t + [Twist(Ext(s, t, i - 1), Ext(s, t, i), Ext(s, t, i - 1 + M))]
  }

  /** The state after one batch of N words. */
  function NextState(s: seq<bv32>): (t: seq<bv32>)
    requires |s| == N
    ensures |t| == N
  {
    Forward(s, |s|)
  }

  lemma {:induction false} ForwardPrefix(s: seq<bv32>, i: nat, j: nat)
    requires |s| == N && i <= j <= N
    ensures Forward(s, j)[..i] == Forward(s, i)
    decreases j
  {
    if i < j {
      ForwardPrefix(s, i, j - 1);
      assert Forward(s, j)[..j - 1] == Forward(s, j - 1);
    }
  }

  /** Every word of the next state obeys the recurrence over old ++ new. */
  lemma NextStateAt(s: seq<bv32>, k: nat)
    requires |s| == N && k < N
    ensures NextState(s)[k] ==
      Twist(Ext(s, NextState(s), k), Ext(s, NextState(s), k + 1), Ext(s, NextState(s), k + M))
  {
    var t := NextState(s);
    var f := Forward(s, k);
    ForwardPrefix(s, k + 1, N);
    ForwardPrefix(s, k, N);
    assert t[k] == Forward(s, k + 1)[k];
    assert Ext(s, f, k) == Ext(s, t, k);
    assert Ext(s, f, k + 1) == Ext(s, t, k + 1);
    assert Ext(s, f, k + M) == Ext(s, t, k + M);
  }

  /** One in-place step: with the first i words already replaced, word i is
   *  replaced by the next word of the forward sequence. */
  lemma ForwardStep(s: seq<bv32>, i: nat, a: seq<bv32>, j: nat, k: nat)
    requires |s| == N && i < N && a == Forward(s, i) + s[i..]
    requires (j == i + 1 && i + 1 < N) || (j == 0 && i == N - 1)
    requires (k == i + M && i + M < N) || (k + N == i + M && i + M >= N)
    ensures a[i := Twist(a[i], a[j], a[k])] == Forward(s, i + 1) + s[i + 1..]
  {
    var t := Forward(s, i);
    assert a[i] == Ext(s, t, i);
    assert a[j] == Ext(s, t, i + 1);
    assert a[k] == Ext(s, t, i + M);
  }

  // ---------------------------------------------------------------------
  // The reverse twist

  /** The low bits of the first word are redundant: they must be those that
   *  the last and the M-th word determine. */
  predicate Consistent(s: seq<bv32>)
    requires |s| == N
  {
    ConsistentWords(s[N - 1], s[M - 1], s[0])
  }

  /** One reverse step: rebuild y from words j and k, write word i from the
   *  upper bit of the y carried in p and the lower bits of the new y. */
  function RevStep(cur: seq<bv32>, p: bv32, i: nat, j: nat, k: nat): (r: (seq<bv32>, bv32))
    requires i < |cur| && j < |cur| && k < |cur|
    ensures |r.0| == |cur|
  {
    var q := RecoverFrom(cur[j], cur[k]);
    (cur[i := Splice(p, q)], q)
  }

  /** The word read as the M-th partner when restoring word i. */
  function RevPartner(i: nat): nat
    requires 1 <= i < N
  {
    if i > N - M then i + M - 1 - N else i + M - 1
  }

  /** Reverse steps for words i, i - 1, ..., 1. */
  function RevDown(cur: seq<bv32>, p: bv32, i: nat): (r: (seq<bv32>, bv32))
    requires |cur| == N && i < N
    ensures |r.0| == N
    decreases i
  {
    if i == 0 then (cur, p)
    else
      var c := RevStep(cur, p, i, i - 1, RevPartner(i));
      RevDown(c.0, c.1, i - 1)
  }

  /** The state one batch earlier: fix the low bits of word 0 and get the
   *  last y, restore words N - 1 down to 1, then word 0. */
  function PrevState(t: seq<bv32>): (s: seq<bv32>)
    requires |t| == N
    ensures |s| == N
  {
    var c0 := RevStep(t, t[0], 0, N - 1, M - 1);
    var c1 := RevDown(c0.0, c0.1, N - 1);
    RevStep(c1.0, c1.1, 0, N - 1, M - 1).0
  }

  /** The next state always has consistent low bits in word 0. */
  lemma ConsistentNext(s: seq<bv32>)
    requires |s| == N
    ensures Consistent(NextState(s))
  {
    var t := NextState(s);
    NextStateAt(s, N - 1);
    assert Ext(s, t, N) == t[0] && Ext(s, t, N - 1 + M) == t[M - 1];
    LowBitsFromTwist(s[N - 1], t[0], t[M - 1], t[N - 1]);
  }

  /** The downward pass restores word i from y[i] (carried in p) and y[i-1]
   *  (recovered from new word i - 1 and its partner), for i down to 1. */
  lemma {:induction false} RevDownRestores(s: seq<bv32>, cur: seq<bv32>, p: bv32, i: nat)
    requires |s| == N && |cur| == N && i < N
    requires forall k :: 0 <= k < i ==> cur[k] == NextState(s)[k]
    requires forall k :: i < k < N ==> cur[k] == s[k]
    requires cur[0] == NextState(s)[0]
    requires p == Splice(s[i], Ext(s, NextState(s), i + 1))
    ensures RevDown(cur, p, i).0 == [NextState(s)[0]] + s[1..]
    ensures RevDown(cur, p, i).1 == Splice(s[0], s[1])
    decreases i
  {
    var t := NextState(s);
    if i == 0 {
      assert cur == [t[0]] + s[1..];
    } else {
      var k := RevPartner(i);
      NextStateAt(s, i - 1);
      assert Ext(s, t, i) == s[i];
      if i > N - M {
        assert Ext(s, t, i - 1 + M) == t[k] == cur[k];
      } else {
        assert Ext(s, t, i - 1 + M) == s[k] == cur[k];
      }
      RestoreWord(s[i - 1], s[i], cur[k], cur[i - 1], p, Ext(s, t, i + 1));
      var c := RevStep(cur, p, i, i - 1, k);
      var cur' := cur[i := s[i]];
      assert c.0 == cur';
      assert c.1 == Splice(s[i - 1], Ext(s, t, i));
      assert forall j :: 0 <= j < i - 1 ==> cur'[j] == t[j];
      assert forall j :: i - 1 < j < N ==> cur'[j] == s[j];
      RevDownRestores(s, cur', c.1, i - 1);
    }
  }

  /** PreviousBatch undoes NextBatch on a state whose word 0 is consistent. */
  lemma PrevNext(s: seq<bv32>)
    requires |s| == N && Consistent(s)
    ensures PrevState(NextState(s)) == s
  {
    var t := NextState(s);
    NextStateAt(s, N - 1);
    assert Ext(s, t, N) == t[0] && Ext(s, t, N - 1 + M) == t[M - 1];
    RestoreWord(s[N - 1], t[0], t[M - 1], t[N - 1], t[0], t[0]);
    var c0 := RevStep(t, t[0], 0, N - 1, M - 1);
    assert c0.0 == t;
    RevDownRestores(s, c0.0, c0.1, N - 1);
    var c1 := RevDown(c0.0, c0.1, N - 1);
    assert c1.0[N - 1] == s[N - 1] && c1.0[M - 1] == s[M - 1];
    FinalWord(s[0], s[1], s[N - 1], s[M - 1]);
    assert PrevState(t) == c1.0[0 := s[0]];
  }

  /** The reverse twist leaves word 0 consistent. */
  lemma ConsistentPrev(t: seq<bv32>)
    requires |t| == N
    ensures Consistent(PrevState(t))
  {
    var c0 := RevStep(t, t[0], 0, N - 1, M - 1);
    var c1 := RevDown(c0.0, c0.1, N - 1);
    SpliceConsistent(c1.0[N - 1], c1.0[M - 1], c1.1);
  }

  // ---------------------------------------------------------------------
  // Several batches

  /** The state after c forward batches. */
  function NextStates(s: seq<bv32>, c: nat): (t: seq<bv32>)
    requires |s| == N
    ensures |t| == N
    decreases c
  {
    if c == 0 then s else NextState(NextStates(s, c - 1))
  }

  /** The state after c reverse batches. */
  function PrevStates(t: seq<bv32>, c: nat): (s: seq<bv32>)
    requires |t| == N
    ensures |s| == N
    decreases c
  {
    if c == 0 then t else PrevStates(PrevState(t), c - 1)
  }

  /** Moving d batches forward, or -d batches back when d is negative. */
  function Advance(s: seq<bv32>, d: int): (t: seq<bv32>)
    requires |s| == N
    ensures |t| == N
  {
    if d >= 0 then NextStates(s, d) else PrevStates(s, -d)
  }

  lemma ConsistentNextStates(s: seq<bv32>, c: nat)
    requires |s| == N && Consistent(s)
    ensures Consistent(NextStates(s, c))
  {
    if c > 0 {
      ConsistentNext(NextStates(s, c - 1));
    }
  }

  /** c reverse batches undo c forward batches. */
  lemma {:induction false} PrevNextStates(s: seq<bv32>, c: nat)
    requires |s| == N && Consistent(s)
    ensures PrevStates(NextStates(s, c), c) == s
    decreases c
  {
    if c > 0 {
      var u := NextStates(s, c - 1);
      ConsistentNextStates(s, c - 1);
      PrevNext(u);
      assert PrevStates(NextStates(s, c), c) == PrevStates(u, c - 1);
      PrevNextStates(s, c - 1);
    }
  }

  /** Stepping d batches forward and then d back returns to the start. */
  lemma AdvanceBack(s: seq<bv32>, d: nat)
    requires |s| == N && Consistent(s)
    ensures Advance(Advance(s, d), -(d as int)) == s
  {
    PrevNextStates(s, d);
    if d == 0 {
      assert Advance(s, 0) == s;
    }
  }

  // ---------------------------------------------------------------------
  // Seeding: the seed_seq algorithm

  /** n as a 32-bit word (the value `n as bv32`), built up one at a time so
   *  that proofs about the words below unfold it only on demand. */
  function Word(n: nat): bv32
    requires n < TWO32
  {
    if n == 0 then 0 else Word(n - 1) + 1
  }

  function Temper30(r: bv32): bv32
  {
    r ^ (r >> 30)
  }

  /** Knuth's recurrence that fills the state from its first word. */
  function KnuthWord(r: bv32, k: nat): bv32
    requires k < N
  {
    1812433253 * Temper30(r) + Word(k)
  }

  /** The first word: 5489 plus the seed length. */
  function KnuthStart(s: nat): bv32
    requires s < TWO32
  {
    5489 + Word(s)
  }

  /** The first n words of the fill that starts from r0. */
  function Knuth(r0: bv32, n: nat): (st: seq<bv32>)
    requires n <= N
    ensures |st| == n
    ensures n > 0 ==> st[0] == r0
  {
    if n == 0 then []
    else if n == 1 then [r0]
    else
      var p := Knuth(r0, n - 1);
      p + [KnuthWord(p[n - 2], n - 1)]
  }

  /** Every word after the first follows from the one before it. */
  lemma {:induction false} KnuthAt(r0: bv32, n: nat, k: nat)
    requires 0 < k < n <= N
    ensures Knuth(r0, n)[k] == KnuthWord(Knuth(r0, n)[k - 1], k)
    decreases n
  {
    if k < n - 1 {
      KnuthAt(r0, n - 1, k);
      assert Knuth(r0, n)[..n - 1] == Knuth(r0, n - 1);
    }
  }

  /** A seed word as the 32-bit value the mixing adds. */
  function Low32(x: nat): bv32
  {
    Word(x % TWO32)
  }

  /** A step of the first mixing pass: seed word w and its index j are added. */
  function MixWord1(x: bv32, r: bv32, w: nat, j: nat): bv32
    requires j < TWO32
  {
    (x ^ (1664525 * Temper30(r))) + (Low32(w) + Word(j))
  }

  /** A step of the second mixing pass: the state index i1 is subtracted. */
  function MixWord2(x: bv32, r: bv32, i1: nat): bv32
    requires i1 < N
  {
    (x ^ (1566083941 * Temper30(r))) - Word(i1)
  }

  /** The next index modulo n. */
  function Succ(i: nat, n: nat): (r: nat)
    requires i < n
    ensures r < n && (r == 0 || r == i + 1)
  {
    if i == n - 1 then 0 else i + 1
  }

  /** k more steps of the first mixing pass, which folds seed word j into
   *  state word i1; both indices wrap around. */
  function Mix1(st: seq<bv32>, r: bv32, i1: nat, j: nat, k: nat, seed: seq<nat>, s: nat): (res: (seq<bv32>, bv32, nat))
    requires |st| == N && i1 < N && s <= |seed| && s < TWO32 && j < s
    ensures |res.0| == N && res.2 < N
    decreases k
  {
    if k == 0 then (st, r, i1)
    else
      var r' := MixWord1(st[i1], r, seed[j], j);
      Mix1(st[i1 := r'], r', Succ(i1, N), Succ(j, s), k - 1, seed, s)
  }

  /** k more steps of the second mixing pass. */
  function Mix2(st: seq<bv32>, r: bv32, i1: nat, k: nat): (res: (seq<bv32>, bv32, nat))
    requires |st| == N && i1 < N
    ensures |res.0| == N && res.2 < N
    decreases k
  {
    if k == 0 then (st, r, i1)
    else
      var r' := MixWord2(st[i1], r, i1);
      Mix2(st[i1 := r'], r', Succ(i1, N), k - 1)
  }

  /** The state the seed vector determines: the Knuth fill from 5489 plus the
   *  seed length, then, for a nonempty seed, the two mixing passes. */
  function SeedState(seed: seq<nat>): (st: seq<bv32>)
    ensures |st| == N
  {
    var s := |seed| % TWO32;
    var kn := Knuth(KnuthStart(s), N);
    if s == 0 then kn
    else
      var m1 := Mix1(kn, kn[N - 1], 0, 0, if N > s then N else s, seed, s);
      Mix2(m1.0, m1.1, m1.2, N).0
  }

  /** With an empty seed the state is the plain Knuth fill from 5489. */
  lemma EmptySeedState()
    ensures SeedState([])[0] == 5489
    ensures forall k :: 0 < k < N ==> SeedState([])[k] == KnuthWord(SeedState([])[k - 1], k)
  {
    forall k | 0 < k < N
      ensures SeedState([])[k] == KnuthWord(SeedState([])[k - 1], k)
    {
      KnuthAt(5489, N, k);
    }
  }

  // ---------------------------------------------------------------------
  // Initialisation from the seed

  predicate AllZero(s: seq<bv32>)
  {
    forall k :: 0 <= k < |s| ==> s[k] == 0
  }

  /** The state Init leaves: the seeded state with the low bits of word 0
   *  dropped, word 0 set to the top bit if nothing else is left, and then the
   *  low bits of word 0 made consistent. */
  function InitState(seed: seq<nat>): (st: seq<bv32>)
    ensures |st| == N
  {
    InitFrom(SeedState(seed))
  }

  /** The fix-ups Init applies to a seeded state. */
  function InitFrom(s0: seq<bv32>): (st: seq<bv32>)
    requires |s0| == N
    ensures |st| == N
  {
    var m := s0[0 := MaskUpper(s0[0])];
    var z := if AllZero(m) then m[0 := UPPER] else m;
    z[0 := Splice(z[0], RecoverFrom(z[N - 1], z[M - 1]))]
  }

  /** Init never leaves an all-zero state. */
  lemma InitNonZero(seed: seq<nat>)
    ensures !AllZero(InitState(seed))
  {
    var s0 := SeedState(seed);
    var m := s0[0 := MaskUpper(s0[0])];
    var z := if AllZero(m) then m[0 := UPPER] else m;
    var q := RecoverFrom(z[N - 1], z[M - 1]);
    if AllZero(m) {
      SpliceUpperNonZero(UPPER, UPPER, q);
      assert InitState(seed)[0] != 0;
    } else {
      var k :| 0 <= k < N && m[k] != 0;
      if k == 0 {
        SpliceUpperNonZero(m[0], s0[0], q);
        assert InitState(seed)[0] != 0;
      } else {
        assert InitState(seed)[k] == m[k];
      }
    }
  }

  /** Init leaves the low bits of word 0 consistent with the rest. */
  lemma InitConsistent(seed: seq<nat>)
    ensures Consistent(InitState(seed))
  {
    var s0 := SeedState(seed);
    var m := s0[0 := MaskUpper(s0[0])];
    var z := if AllZero(m) then m[0 := UPPER] else m;
    SpliceConsistent(z[N - 1], z[M - 1], z[0]);
  }

  // ---------------------------------------------------------------------
  // Checking saved state

  datatype CheckError =
    | UnknownVersion
    | IllegalSeed
    | InvalidStride
    | InvalidPointer
    | AllZeroState
    | InvalidState

  /** A count as the 64-bit unsigned value C's cast gives. */
  function Low64(x: int): bv64
  {
    (x % TWO64) as bv64
  }

  /** Fold the seed words into the checksum, failing on the first one that
   *  does not fit in 32 bits. */
  function SeedSums(ws: seq<nat>, check: bv32): (r: Result<bv32, CheckError>)
    ensures r.Err? ==> r.error == IllegalSeed
    decreases |ws|
  {
    if ws == [] then Ok(check)
    else if ws[0] != SeedMask(ws[0]) then Err(IllegalSeed)
    else SeedSums(ws[1..], CheckSum32(Low32(ws[0]), check))
  }

  lemma {:induction false} SeedSumsOk(ws: seq<nat>, check: bv32)
    ensures SeedSums(ws, check).Ok? <==> forall i :: 0 <= i < |ws| ==> ws[i] < TWO32
    decreases |ws|
  {
    if ws != [] {
      SeedSumsOk(ws[1..], CheckSum32(Low32(ws[0]), check));
      assert forall i :: 1 <= i < |ws| ==> ws[i] == ws[1..][i - 1];
    }
  }

  /** The bitwise or of x and all the words. */
  function OrFrom(ws: seq<bv32>, x: bv32): bv32
    decreases |ws|
  {
    if ws == [] then x else OrFrom(ws[1..], Or(x, ws[0]))
  }

  lemma {:induction false} OrFromZero(ws: seq<bv32>, x: bv32)
    ensures OrFrom(ws, x) == 0 <==> x == 0 && AllZero(ws)
    decreases |ws|
  {
    if ws != [] {
      OrFromZero(ws[1..], Or(x, ws[0]));
      OrZero(x, ws[0]);
      assert AllZero(ws) <==> ws[0] == 0 && AllZero(ws[1..]) by {
        assert forall i :: 1 <= i < |ws| ==> ws[i] == ws[1..][i - 1];
      }
    }
  }

  /** The checksum of a generator's saved state, or the first inconsistency
   *  found in it. */
  function CheckState(version: bv32, seed: seq<nat>, ptr: nat, stride: nat, rounds: int, st: seq<bv32>): Result<bv32, CheckError>
    requires |st| == N
  {
    if version != VERSIONID && version != VERSIONID - 1 then Err(UnknownVersion)
    else
      match SeedSums(seed, CheckSum32(Low32(|seed|), version))
      case Err(e) => Err(e)
      case Ok(c1) =>
        var c2 := CheckSum32(if version == VERSIONID - 1 && ptr == UNINIT then Low32(N + 1) else Low32(ptr), c1);
        if stride == 0 || stride > UNINIT / 2 then Err(InvalidStride)
        else
          var c3 := if version != VERSIONID - 1 then CheckSum32(Low32(stride), c2) else c2;
          if ptr == UNINIT then Ok(c3)
          else if ptr >= N + stride then Err(InvalidPointer)
          else
            var c4 := CheckSumWords(st, CheckSum64(Low64(rounds), c3));
            if OrFrom(st, 0) == 0 then Err(AllZeroState)
            else if !Consistent(st) then Err(InvalidState)
            else Ok(c4)
  }

  /** What a successful check guarantees, and that nothing else is refused. */
  lemma CheckAccepts(version: bv32, seed: seq<nat>, ptr: nat, stride: nat, rounds: int, st: seq<bv32>)
    requires |st| == N
    ensures CheckState(version, seed, ptr, stride, rounds, st).Ok? <==>
      (version == VERSIONID || version == VERSIONID - 1) &&
      (forall i :: 0 <= i < |seed| ==> seed[i] < TWO32) &&
      0 < stride <= UNINIT / 2 &&
      (ptr != UNINIT ==> ptr < N + stride && !AllZero(st) && Consistent(st))
  {
    SeedSumsOk(seed, CheckSum32(Low32(|seed|), version));
    OrFromZero(st, 0);
  }

  /** The errors, in the order they are tested. */
  lemma CheckErrors(version: bv32, seed: seq<nat>, ptr: nat, stride: nat, rounds: int, st: seq<bv32>)
    requires |st| == N
    ensures var r := CheckState(version, seed, ptr, stride, rounds, st);
      (r == Err(UnknownVersion) <==> version != VERSIONID && version != VERSIONID - 1) &&
      (r == Err(IllegalSeed) <==>
        (version == VERSIONID || version == VERSIONID - 1) && exists i :: 0 <= i < |seed| && seed[i] >= TWO32)
  {
    SeedSumsOk(seed, CheckSum32(Low32(|seed|), version));
  }

  /** A freshly seeded and initialised generator passes the check. */
  lemma InitPassesCheck(seed: seq<nat>)
    requires forall i :: 0 <= i < |seed| ==> seed[i] < TWO32
    ensures CheckState(VERSIONID, seed, N, 1, -1, InitState(seed)).Ok?
  {
    InitNonZero(seed);
    InitConsistent(seed);
    CheckAccepts(VERSIONID, seed, N, 1, -1, InitState(seed));
  }

  // ---------------------------------------------------------------------
  // The generator

  class Generator {
    /** The seed vector, each word below 2^32 once masked. */
    var seed: seq<nat>
    /** The N words of state, twisted in place. */
    const state: array<bv32>
    /** The index of the next word to use, or UNINIT before Init. */
    var ptr: nat
    /** The number of batches done since Init, which leaves it at -1. */
    var rounds: int
    /** The leapfrogging stride. */
    var stride: nat

    predicate Valid()
      reads this
    {
      state.Length == N
    }

    /** A generator seeded with v and not yet initialised. */
    constructor (v: seq<nat>)
      ensures Valid() && fresh(state)
      ensures seed == MaskAll(v) && ptr == UNINIT && stride == 1
    {
      seed := MaskAll(v);
      state := new bv32[N];
      ptr := UNINIT;
      rounds := 0;
      stride := 1;
    }

    /** The index of the next number to be produced. */
    function Count(): int
      reads this
    {
      if ptr == UNINIT then 0 else rounds * N + ptr
    }

    /** Back to the just-seeded sequence, stride 1. */
    method Reset()
      modifies this
      ensures ptr == UNINIT && stride == 1 && Count() == 0
      ensures seed == old(seed) && rounds == old(rounds)
    {
      ptr := UNINIT;
      stride := 1;
    }

    /** Reseed from a vector, keeping the low 32 bits of each word. */
    method ReseedVector(v: seq<nat>)
      modifies this
      ensures seed == MaskAll(v) && ptr == UNINIT && stride == 1
    {
      seed := MaskAll(v);
      Reset();
    }

    /** Reseed from a single word. */
    method ReseedWord(n: nat)
      modifies this
      ensures seed == [SeedMask(n)] && ptr == UNINIT && stride == 1
    {
      seed := [SeedMask(n)];
      Reset();
    }

    /** Reseed from the digit runs of a string. */
    method ReseedString(s: string)
      modifies this
      ensures seed == ParseSeeds(s) && ptr == UNINIT && stride == 1
    {
      var t := StringToVector(s);
      seed := t;
      Reset();
    }

    /** One step of the recurrence, in place. */
    method Step(i: nat, j: nat, k: nat)
      requires Valid() && i < N && j < N && k < N
      modifies state
      ensures state[..] == old(state[..])[i := Twist(old(state[i]), old(state[j]), old(state[k]))]
    {
      state[i] := Twist(state[i], state[j], state[k]);
    }

    /** One batch: every word replaced in turn, later words reading the new
     *  values of earlier ones. */
    method TwistRound()
      requires Valid()
      modifies state
      ensures state[..] == NextState(old(state[..]))
    {
      ghost var s0 := state[..];
      assert s0 == Forward(s0, 0) + s0[0..];
      TwistHead(s0);
      TwistTail(s0);
      ForwardStep(s0, N - 1, state[..], 0, M - 1);
      Step(N - 1, 0, M - 1);
      assert state[..] == Forward(s0, N) + s0[N..];
    }

    /** The words below N - M, whose partner M on is still an old word. */
    method TwistHead(ghost s0: seq<bv32>)
      requires Valid() && |s0| == N && state[..] == Forward(s0, 0) + s0[0..]
      modifies state
      ensures state[..] == Forward(s0, N - M) + s0[N - M..]
    {
      var i := 0;
      while i < N - M
        invariant 0 <= i <= N - M
        invariant state[..] == Forward(s0, i) + s0[i..]
      {
        ForwardStep(s0, i, state[..], i + 1, i + M);
        Step(i, i + 1, i + M);
        i := i + 1;
      }
    }

    /** The words from N - M to N - 2, whose partner has wrapped around to a
     *  new word. */
    method TwistTail(ghost s0: seq<bv32>)
      requires Valid() && |s0| == N && state[..] == Forward(s0, N - M) + s0[N - M..]
      modifies state
      ensures state[..] == Forward(s0, N - 1) + s0[N - 1..]
    {
      var i := N - M;
      while i < N - 1
        invariant N - M <= i <= N - 1
        invariant state[..] == Forward(s0, i) + s0[i..]
      {
        ForwardStep(s0, i, state[..], i + 1, i + M - N);
        Step(i, i + 1, i + M - N);
        i := i + 1;
      }
    }

    /** count batches forward. */
    method NextBatch(count: nat)
      requires Valid()
      modifies this, state
      ensures rounds == old(rounds) + count
      ensures state[..] == NextStates(old(state[..]), count)
      ensures seed == old(seed) && ptr == old(ptr) && stride == old(stride)
    {
      rounds := rounds + count;
      ghost var s0 := state[..];
      var c: nat := count;
      while c > 0
        invariant c <= count
        invariant state[..] == NextStates(s0, count - c)
        modifies state
      {
        TwistRound();
        c := c - 1;
      }
    }

    /** One reverse step, in place; p carries y from word to word. */
    method RevStepAt(p: bv32, i: nat, j: nat, k: nat) returns (q: bv32)
      requires Valid() && i < N && j < N && k < N
      modifies state
      ensures (state[..], q) == RevStep(old(state[..]), p, i, j, k)
    {
      q := RecoverFrom(state[j], state[k]);
      state[i] := Splice(p, q);
    }

    /** The reverse steps for words N - 1 down to N - M + 1, whose partner
     *  wraps around. */
    method RevUpper(p0: bv32) returns (p: bv32)
      requires Valid()
      modifies state
      ensures RevDown(state[..], p, N - M) == RevDown(old(state[..]), p0, N - 1)
    {
      ghost var t := state[..];
      p := p0;
      var i := N - 1;
      while i > N - M
        invariant N - M <= i <= N - 1
        invariant RevDown(state[..], p, i) == RevDown(t, p0, N - 1)
      {
        p := RevStepAt(p, i, i - 1, i + M - 1 - N);
        i := i - 1;
      }
    }

    /** The reverse steps for words N - M down to 1. */
    method RevLower(p0: bv32) returns (p: bv32)
      requires Valid()
      modifies state
      ensures (state[..], p) == RevDown(old(state[..]), p0, N - M)
    {
      ghost var t := state[..];
      p := p0;
      var i := N - M;
      while i > 0
        invariant 0 <= i <= N - M
        invariant RevDown(state[..], p, i) == RevDown(t, p0, N - M)
      {
        p := RevStepAt(p, i, i - 1, i + M - 1);
        i := i - 1;
      }
    }

    /** One batch backwards. */
    method RevRound()
      requires Valid()
      modifies state
      ensures state[..] == PrevState(old(state[..]))
    {
      ghost var t := state[..];
      var p := RevStepAt(state[0], 0, N - 1, M - 1);
      ghost var c0 := RevStep(t, t[0], 0, N - 1, M - 1);
      assert (state[..], p) == c0;
      p := RevUpper(p);
      p := RevLower(p);
      ghost var c1 := RevDown(c0.0, c0.1, N - 1);
      assert (state[..], p) == c1;
      p := RevStepAt(p, 0, N - 1, M - 1);
    }

    /** count batches backwards. */
    method PreviousBatch(count: nat)
      requires Valid()
      modifies this, state
      ensures rounds == old(rounds) - count
      ensures state[..] == PrevStates(old(state[..]), count)
      ensures seed == old(seed) && ptr == old(ptr) && stride == old(stride)
    {
      rounds := rounds - count;
      ghost var s0 := state[..];
      var c: nat := count;
      while c > 0
        invariant c <= count
        invariant PrevStates(state[..], c) == PrevStates(s0, count)
        modifies state
      {
        RevRound();
        c := c - 1;
      }
    }

    /** Fill the state from the seed. */
    method SeedToState()
      requires Valid()
      modifies state
      ensures state[..] == SeedState(seed)
    {
      var s := |seed| % TWO32;
      var r := KnuthFill(KnuthStart(s));
      if s > 0 {
        var i1;
        r, i1 := MixSeed(r, s);
        r := MixIndex(r, i1);
      }
    }

    /** The Knuth fill of every word, from r0. */
    method KnuthFill(r0: bv32) returns (r: bv32)
      requires Valid()
      modifies state
      ensures state[..] == Knuth(r0, N) && r == state[N - 1]
    {
      r := r0;
      state[0] := r;
      var k := 1;
      while k < N
        invariant 1 <= k <= N
        invariant state[..k] == Knuth(r0, k)
        invariant r == state[k - 1]
      {
        r := KnuthWord(r, k);
        state[k] := r;
        k := k + 1;
      }
      assert state[..] == state[..N];
    }

    /** The first mixing pass: max(N, s) steps over the state, folding in the
     *  first s seed words in turn. */
    method MixSeed(r0: bv32, s: nat) returns (r: bv32, i1: nat)
      requires Valid() && 0 < s <= |seed| && s < TWO32
      modifies state
      ensures (state[..], r, i1) == Mix1(old(state[..]), r0, 0, 0, if N > s then N else s, seed, s)
    {
      r, i1 := r0, 0;
      var j: nat := 0;
      var cnt: nat := if N > s then N else s;
      var words := seed;
      ghost var m1 := Mix1(state[..], r, i1, j, cnt, words, s);
      while cnt > 0
        invariant i1 < N && j < s
        invariant Mix1(state[..], r, i1, j, cnt, words, s) == m1
      {
        r := MixWord1(state[i1], r, words[j], j);
        state[i1] := r;
        cnt := cnt - 1;
        i1 := Succ(i1, N);
        j := Succ(j, s);
      }
    }

    /** The second mixing pass: N more steps, continuing from word i0. */
    method MixIndex(r0: bv32, i0: nat) returns (r: bv32)
      requires Valid() && i0 < N
      modifies state
      ensures state[..] == Mix2(old(state[..]), r0, i0, N).0
    {
      r := r0;
      var i1: nat := i0;
      var cnt: nat := N;
      ghost var m2 := Mix2(state[..], r, i1, N);
      while cnt > 0
        invariant i1 < N
        invariant Mix2(state[..], r, i1, cnt) == m2
      {
        r := MixWord2(state[i1], r, i1);
        state[i1] := r;
        cnt := cnt - 1;
        i1 := Succ(i1, N);
      }
    }

    /** Compute the state from the seed, ready to produce number 0. */
    method Init()
      requires Valid()
      modifies this, state
      ensures state[..] == InitState(seed) && rounds == -1 && ptr == N && Count() == 0
      ensures seed == old(seed) && stride == old(stride)
    {
      ghost var seed0 := seed;
      SeedToState();
      FixUp();
      assert seed == seed0;
      rounds := -1;
      ptr := N;
    }

    /** Init's fix-ups of the seeded state: keep only the top bit of word 0,
     *  set it if every word is zero, and make word 0 consistent. */
    method FixUp()
      requires Valid()
      modifies state
      ensures state[..] == InitFrom(old(state[..]))
    {
      state[0] := MaskUpper(state[0]);
      var i := 0;
      while i < N && state[i] == 0
        invariant 0 <= i <= N
        invariant forall k :: 0 <= k < i ==> state[k] == 0
      {
        i := i + 1;
      }
      if i >= N {
        state[0] := UPPER;
      }
      state[0] := Splice(state[0], RecoverFrom(state[N - 1], state[M - 1]));
    }

    /** Step the count by n, forwards or backwards, doing whole batches. */
    method StepCount(n: int)
      requires Valid()
      modifies this, state
      ensures Count() == old(Count()) + n
      ensures 0 <= ptr <= N
      ensures seed == old(seed) && stride == old(stride)
      ensures state[..] == Advance(if old(ptr) == UNINIT then InitState(seed) else old(state[..]),
                                   rounds - (if old(ptr) == UNINIT then -1 else old(rounds)))
    {
      if ptr == UNINIT {
        Init();
      }
      ghost var s1, r1 := state[..], rounds;
      var ncount := n + Count();
      var nrounds := CDiv(ncount, N);
      var nptr := ncount - nrounds * N;
      if nptr <= 0 {
        nrounds := nrounds - 1;
        nptr := nptr + N;
      }
      assert nrounds * N + nptr == ncount && 0 < nptr <= N;
      if nrounds > rounds {
        NextBatch(nrounds - rounds);
      } else if nrounds < rounds {
        if nptr == N {
          nptr := 0;
          nrounds := nrounds + 1;
        }
        PreviousBatch(rounds - nrounds);
      } else {
        assert state[..] == Advance(s1, 0);
      }
      assert rounds == nrounds && state[..] == Advance(s1, rounds - r1);
      ptr := nptr;
    }

    /** Do the batches the pointer has run past. */
    method Next()
      requires Valid()
      modifies this, state
      ensures ptr < N && Count() == old(Count())
      ensures seed == old(seed) && stride == old(stride)
      ensures var r1 := if old(ptr) == UNINIT then -1 else old(rounds);
        rounds >= r1 &&
        state[..] == NextStates(if old(ptr) == UNINIT then InitState(seed) else old(state[..]), rounds - r1)
    {
      if ptr == UNINIT {
        Init();
      }
      NextBatch(ptr / N);
      ptr := ptr % N;
    }

    /** The checksum of the saved state, or why the state cannot be saved. */
    method Check(version: bv32) returns (r: Result<bv32, CheckError>)
      requires Valid()
      ensures r == CheckState(version, seed, ptr, stride, rounds, state[..])
    {
      if version != VERSIONID && version != VERSIONID - 1 {
        return Err(UnknownVersion);
      }
      var check := CheckSum32(Low32(|seed|), version);
      ghost var c0 := check;
      var i := 0;
      while i < |seed|
        invariant i <= |seed|
        invariant SeedSums(seed[i..], check) == SeedSums(seed, c0)
      {
        if seed[i] != SeedMask(seed[i]) {
          return Err(IllegalSeed);
        }
        check := CheckSum32(Low32(seed[i]), check);
        i := i + 1;
      }
      check := CheckSum32(if version == VERSIONID - 1 && ptr == UNINIT then Low32(N + 1) else Low32(ptr), check);
      if stride == 0 || stride > UNINIT / 2 {
        return Err(InvalidStride);
      }
      if version != VERSIONID - 1 {
        check := CheckSum32(Low32(stride), check);
      }
      if ptr != UNINIT {
        if ptr >= N + stride {
          return Err(InvalidPointer);
        }
        check := CheckSum64(Low64(rounds), check);
        ghost var c3 := check;
        var x: bv32 := 0;
        var k := 0;
        while k < N
          invariant k <= N
          invariant CheckSumWords(state[k..], check) == CheckSumWords(state[..], c3)
          invariant OrFrom(state[k..], x) == OrFrom(state[..], 0)
        {
          check := CheckSum32(state[k], check);
          x := Or(x, state[k]);
          k := k + 1;
        }
        if x == 0 {
          return Err(AllZeroState);
        }
        if !ConsistentWords(state[N - 1], state[M - 1], state[0]) {
          return Err(InvalidState);
        }
      }
      return Ok(check);
    }
  }
}
