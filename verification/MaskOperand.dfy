/**
 * The mask operand of the PowerPC rotate instructions (contrib/disas/ppc-opc.cc, insert_mbe and extract_mbe).
 * Words are sequences of 32 bits, most significant first, as Power ISA numbers them.
 */
module MaskOperand {

  const WIDTH := 32
  const MB := 21
  const ME := 26

  type Word = w: seq<bool> | |w| == WIDTH witness seq(WIDTH, _ => false)

  /** MASK(mb, me) of Power ISA Book I: ones from bit mb to bit me, wrapping around the end of the word. */
  function Mask(mb: nat, me: nat): Word
    requires mb < WIDTH && me < WIDTH
  {
    seq(WIDTH, i requires 0 <= i < WIDTH => if mb <= me then mb <= i <= me else i >= mb || i <= me)
  }

  /** One run of ones around the circle of the word's bits, the whole circle included. */
  ghost predicate CyclicRun(w: Word) {
    exists start: nat, len: nat :: start < WIDTH && 0 < len <= WIDTH && IsRun(w, start, len)
  }

  ghost predicate IsRun(w: Word, start: nat, len: nat) {
    forall i: nat | i < WIDTH :: w[i] <==> (i - start) % WIDTH < len
  }

  // ----- transitions

  function Before(w: Word, i: nat): bool
    requires i < WIDTH
  {
    if i == 0 then w[WIDTH - 1] else w[i - 1]
  }

  predicate Rise(w: Word, i: nat)
    requires i < WIDTH
  {
    w[i] && !Before(w, i)
  }

  predicate Fall(w: Word, i: nat)
    requires i < WIDTH
  {
    !w[i] && Before(w, i)
  }

  ghost function Rises(w: Word, n: nat): set<nat>
    requires n <= WIDTH
  {
    set i: nat | i < n && Rise(w, i)
  }

  ghost function Falls(w: Word, n: nat): set<nat>
    requires n <= WIDTH
  {
    set i: nat | i < n && Fall(w, i)
  }

  /** The word's bits do not change between transitions. */
  lemma {:induction false} Steady(w: Word, p: nat, q: nat)
    requires p <= q < WIDTH
    requires forall i: nat | p < i <= q :: if w[p] then !Fall(w, i) else !Rise(w, i)
    ensures w[q] == w[p]
  {
    if p >= q {
    } else {
      Steady(w, p, q - 1);
      assert if w[p] then !Fall(w, q) else !Rise(w, q);
    }
  }

  lemma SteadyRange(w: Word, p: nat, q: nat)
    requires p < q <= WIDTH
    requires forall i: nat | p < i < q :: if w[p] then !Fall(w, i) else !Rise(w, i)
    ensures forall i: nat | p <= i < q :: w[i] == w[p]
  {
    forall i: nat | p <= i < q ensures w[i] == w[p] { Steady(w, p, i); }
  }

  /** One rise and one fall: the word is the mask between them. */
  lemma OneRiseOneFall(w: Word, mb: nat, me: nat)
    requires mb < WIDTH && me < WIDTH && Rise(w, mb) && Fall(w, me)
    requires forall i: nat | i < WIDTH :: (Rise(w, i) ==> i == mb) && (Fall(w, i) ==> i == me)
    ensures w == Mask(mb, if me == 0 then WIDTH - 1 else me - 1)
  {
    if mb < me {
      SteadyRange(w, mb, me);
      SteadyRange(w, me, WIDTH);
      if 0 < mb {
        assert !Rise(w, 0);
        SteadyRange(w, 0, mb);
      }
    } else {
      SteadyRange(w, me, mb);
      SteadyRange(w, mb, WIDTH);
      if 0 < me {
        assert !Fall(w, 0);
        SteadyRange(w, 0, me);
      }
    }
  }

  lemma NoTransition(w: Word)
    requires forall i: nat | i < WIDTH :: !Rise(w, i) && !Fall(w, i)
    ensures forall i: nat | i < WIDTH :: w[i] == w[WIDTH - 1]
  {
    SteadyRange(w, 0, WIDTH);
  }

  lemma MaskIsRun(mb: nat, me: nat)
    requires mb < WIDTH && me < WIDTH
    ensures CyclicRun(Mask(mb, me))
  {
    var len := if mb <= me then me - mb + 1 else WIDTH - mb + me + 1;
    assert IsRun(Mask(mb, me), mb, len);
  }

  /** A run rises in one place at most, and falls in one place at most. */
  lemma RunRises(w: Word, start: nat, len: nat)
    requires start < WIDTH && 0 < len <= WIDTH && IsRun(w, start, len)
    ensures forall i: nat | i < WIDTH :: Rise(w, i) ==> i == start
    ensures w[start]
  {
  }

  lemma AtMostOne(s: set<nat>, x: nat)
    requires forall y | y in s :: y == x
    ensures |s| <= 1
  {
    if s != {} { assert s == {x}; }
  }

  lemma ExactlyOne(s: set<nat>, x: nat)
    requires |s| == 1 && x in s
    ensures forall y | y in s :: y == x
  {
    assert s == {x} by {
      assert |s - {x}| == 0;
    }
  }

  // ----- inserting

  lemma TransitionsStep(w: Word, n: nat)
    requires n < WIDTH
    ensures Rises(w, n + 1) == (if Rise(w, n) then Rises(w, n) + {n} else Rises(w, n)) && n !in Rises(w, n)
    ensures Falls(w, n + 1) == (if Fall(w, n) then Falls(w, n) + {n} else Falls(w, n)) && n !in Falls(w, n)
  {
  }

  lemma NoTransitionsYet(w: Word)
    ensures Rises(w, 0) == {} && Falls(w, 0) == {}
  {
  }

  /** The loop: where the word last rises and falls, and how many transitions it has around the circle. */
  method Scan(w: Word) returns (mb: nat, me: nat, count: nat, last: bool)
    ensures count == |Rises(w, WIDTH)| + |Falls(w, WIDTH)| && |Rises(w, WIDTH)| == |Falls(w, WIDTH)|
    ensures if Rises(w, WIDTH) == {} then mb == 0 else mb in Rises(w, WIDTH)
    ensures if Falls(w, WIDTH) == {} then me == WIDTH else me in Falls(w, WIDTH)
    ensures last == w[WIDTH - 1]
  {
    hide Rises, Falls;
    NoTransitionsYet(w);
    mb, me, count, last := 0, WIDTH, 0, w[WIDTH - 1];
    ghost var rises, falls: set<nat> := {}, {};
    for mx := 0 to WIDTH
      invariant rises == Rises(w, mx) && falls == Falls(w, mx)
      invariant last == if mx == 0 then w[WIDTH - 1] else w[mx - 1]
      invariant count == |rises| + |falls|
      invariant |rises| + (if w[WIDTH - 1] then 1 else 0) == |falls| + (if last then 1 else 0)
      invariant if rises == {} then mb == 0 else mb in rises
      invariant if falls == {} then me == WIDTH else me in falls
    {
      TransitionsStep(w, mx);
      if w[mx] && !last {
        count, mb, last := count + 1, mx, true;
        rises := rises + {mx};
      } else if !w[mx] && last {
        count, me, last := count + 1, mx, false;
        falls := falls + {mx};
      }
    }
  }

  function Digit(b: bool, weight: nat): nat { if b then weight else 0 }

  /** The value of the five bits from p on. */
  function Field(w: Word, p: nat): nat
    requires p + 5 <= WIDTH
  {
    Digit(w[p], 16) + Digit(w[p + 1], 8) + Digit(w[p + 2], 4) + Digit(w[p + 3], 2) + Digit(w[p + 4], 1)
  }

  function FieldBit(v: nat, k: nat): bool
    requires k < 5
  {
    if k == 0 then v / 16 % 2 == 1
    else if k == 1 then v / 8 % 2 == 1
    else if k == 2 then v / 4 % 2 == 1
    else if k == 3 then v / 2 % 2 == 1
    else v % 2 == 1
  }

  /** The instruction with v or'ed into the five bits from p on. */
  function OrField(insn: Word, p: nat, v: nat): Word
    requires p + 5 <= WIDTH && v < 32
  {
    seq(WIDTH, i requires 0 <= i < WIDTH => insn[i] || (p <= i < p + 5 && FieldBit(v, i - p)))
  }

  predicate Clear(insn: Word) { forall i | MB <= i < ME + 5 :: !insn[i] }

  lemma FieldOfOr(insn: Word, p: nat, v: nat)
    requires p + 5 <= WIDTH && v < 32 && forall i | p <= i < p + 5 :: !insn[i]
    ensures Field(OrField(insn, p, v), p) == v
  {
    var w := OrField(insn, p, v);
    assert w[p] == FieldBit(v, 0) && w[p + 1] == FieldBit(v, 1) && w[p + 2] == FieldBit(v, 2);
    assert w[p + 3] == FieldBit(v, 3) && w[p + 4] == FieldBit(v, 4);
  }

  function Encode(insn: Word, mb: nat, me: nat): Word
    requires mb < 32 && me < 32
  {
    OrField(OrField(insn, MB, mb), ME, me)
  }

  lemma FieldsOfEncode(insn: Word, mb: nat, me: nat)
    requires mb < 32 && me < 32 && Clear(insn)
    ensures Field(Encode(insn, mb, me), 21) == mb && Field(Encode(insn, mb, me), 26) == me
  {
    var one := OrField(insn, MB, mb);
    FieldOfOr(insn, MB, mb);
    FieldOfOr(one, ME, me);
    assert forall i | MB <= i < MB + 5 :: Encode(insn, mb, me)[i] == one[i];
  }

  /** The fields the encoding uses for a mask: those of the full mask are (0, 31). */
  ghost predicate Canonical(w: Word, mb: nat, me: nat) {
    mb < WIDTH && me < WIDTH && w == Mask(mb, me) && (mb == (me + 1) % WIDTH ==> mb == 0)
  }

  /** A word that is not all zeros and has neither two transitions nor none is no run. */
  lemma NotARun(w: Word, count: nat)
    requires count == |Rises(w, WIDTH)| + |Falls(w, WIDTH)| && |Rises(w, WIDTH)| == |Falls(w, WIDTH)|
    requires count != 2 && (count != 0 || !w[WIDTH - 1])
    ensures !CyclicRun(w)
  {
    if CyclicRun(w) {
      var start: nat, len: nat :| start < WIDTH && 0 < len <= WIDTH && IsRun(w, start, len);
      RunRises(w, start, len);
      AtMostOne(Rises(w, WIDTH), start);
      assert count == 0;
      NoChange(w);
      assert false;
    }
  }

  lemma NoChange(w: Word)
    requires |Rises(w, WIDTH)| == 0 && |Falls(w, WIDTH)| == 0
    ensures forall i: nat | i < WIDTH :: w[i] == w[WIDTH - 1]
  {
    forall i: nat | i < WIDTH ensures !Rise(w, i) && !Fall(w, i) {
      assert i !in Rises(w, WIDTH) && i !in Falls(w, WIDTH);
    }
    NoTransition(w);
  }

  /** What the loop found is the mask, in the fields' canonical form. */
  lemma IsAMask(w: Word, mb: nat, me: nat, count: nat)
    requires count == |Rises(w, WIDTH)| + |Falls(w, WIDTH)| && |Rises(w, WIDTH)| == |Falls(w, WIDTH)|
    requires count == 2 || (count == 0 && w[WIDTH - 1])
    requires if Rises(w, WIDTH) == {} then mb == 0 else mb in Rises(w, WIDTH)
    requires if Falls(w, WIDTH) == {} then me == WIDTH else me in Falls(w, WIDTH)
    ensures Canonical(w, mb, if me == 0 then WIDTH - 1 else me - 1)
  {
    if count == 0 {
      NoChange(w);
      assert w == Mask(0, WIDTH - 1);
    } else {
      ExactlyOne(Rises(w, WIDTH), mb);
      ExactlyOne(Falls(w, WIDTH), me);
      forall i: nat | i < WIDTH ensures (Rise(w, i) ==> i == mb) && (Fall(w, i) ==> i == me) {
        assert Rise(w, i) ==> i in Rises(w, WIDTH);
        assert Fall(w, i) ==> i in Falls(w, WIDTH);
      }
      OneRiseOneFall(w, mb, me);
    }
  }

  lemma ZeroIsNoRun(w: Word)
    requires forall i: nat | i < WIDTH :: !w[i]
    ensures !CyclicRun(w)
  {
    if CyclicRun(w) {
      var start: nat, len: nat :| start < WIDTH && 0 < len <= WIDTH && IsRun(w, start, len);
      RunRises(w, start, len);
      assert false;
    }
  }

  /** Inserting only sets bits, and only those of the two fields. */
  lemma EncodeKeeps(insn: Word, mb: nat, me: nat)
    requires mb < 32 && me < 32
    ensures forall i | 0 <= i < WIDTH ::
              (insn[i] ==> Encode(insn, mb, me)[i]) && (21 <= i < 31 || Encode(insn, mb, me)[i] == insn[i])
  {
  }

  /**
   * Reports an error exactly when the value is not one cyclic run of ones; else the fields it sets are those of the
   * mask, and over a clear field they read back as the mask.
   */
  method InsertMbe(insn: Word, value: Word) returns (result: Word, error: bool)
    ensures error <==> !CyclicRun(value)
    ensures !error ==> exists mb, me :: Canonical(value, mb, me) && result == Encode(insn, mb, me)
    ensures !error && Clear(insn) ==> Field(result, 21) < 32 && Field(result, 26) < 32 &&
                                      Mask(Field(result, 21), Field(result, 26)) == value
    ensures forall i | 0 <= i < 32 :: (insn[i] ==> result[i]) && (21 <= i < 31 || result[i] == insn[i])
    ensures (forall i | 0 <= i < WIDTH :: !value[i]) ==> result == insn
  {
    hide Encode, Field, Mask;
    if forall i | 0 <= i < WIDTH :: !value[i] {
      ZeroIsNoRun(value);
      return insn, true;
    }
    var mb, me, count, last := Scan(value);
    ghost var found := me;
    if me == 0 { me := WIDTH; }
    error := count != 2 && (count != 0 || !last);
    result := Encode(insn, mb, me - 1);
    EncodeKeeps(insn, mb, me - 1);
    if error {
      NotARun(value, count);
    } else {
      IsAMask(value, mb, found, count);
      MaskIsRun(mb, me - 1);
      if Clear(insn) { FieldsOfEncode(insn, mb, me - 1); }
    }
  }

  // ----- extracting

  method ExtractMbe(insn: Word) returns (ret: Word)
    ensures ret == Mask(Field(insn, 21), Field(insn, 26))
  {
    var mb, me := Field(insn, MB), Field(insn, ME);
    if mb < me + 1 {
      ret := seq(WIDTH, _ => false);
      for i := mb to me + 1
        invariant |ret| == WIDTH
        invariant forall k | 0 <= k < WIDTH :: ret[k] == (mb <= k < i)
      {
        ret := ret[i := true];
      }
    } else if mb == me + 1 {
      ret := seq(WIDTH, _ => true);
    } else {
      ret := seq(WIDTH, _ => true);
      for i := me + 1 to mb
        invariant |ret| == WIDTH
        invariant forall k | 0 <= k < WIDTH :: ret[k] == !(me + 1 <= k < i)
      {
        ret := ret[i := false];
      }
    }
  }

  /** Different fields mean different masks, except that all the ways to write the full mask mean the same. */
  lemma MaskUnique(mb: nat, me: nat, mb': nat, me': nat)
    requires mb < WIDTH && me < WIDTH && mb' < WIDTH && me' < WIDTH
    ensures Mask(mb, me) == Mask(mb', me') <==>
            (mb == mb' && me == me') || (mb == (me + 1) % WIDTH && mb' == (me' + 1) % WIDTH)
  {
    var w, w' := Mask(mb, me), Mask(mb', me');
    if w == w' {
      if mb != (me + 1) % WIDTH {
        assert Rise(w, mb) && Fall(w, (me + 1) % WIDTH);
        assert mb' != (me' + 1) % WIDTH by {
          assert !w[(me + 1) % WIDTH];
        }
        assert Rise(w', mb') && Fall(w', (me' + 1) % WIDTH);
        assert Rise(w', mb) ==> mb == mb';
      } else {
        assert w'[(me' + 1) % WIDTH];
      }
    } else {
      assert mb == mb' && me == me' ==> w == w';
      assert mb == (me + 1) % WIDTH && mb' == (me' + 1) % WIDTH ==> w == w';
    }
  }

  /** Inserting an extracted mask again restores the fields, except that the full mask becomes (0, 31). */
  lemma Reinsert(mb: nat, me: nat, mb': nat, me': nat)
    requires mb < WIDTH && me < WIDTH && Canonical(Mask(mb, me), mb', me')
    ensures CyclicRun(Mask(mb, me))
    ensures if mb == (me + 1) % WIDTH then mb' == 0 && me' == WIDTH - 1 else mb' == mb && me' == me
  {
    MaskIsRun(mb, me);
    MaskUnique(mb, me, mb', me');
  }
}
