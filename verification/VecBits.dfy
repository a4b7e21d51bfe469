/** The 256-bit vector bitmaps of the local APIC: eight 32-bit words, which behave
    as a set of vectors. */
module VecBits {
  import opened Prelude

  type Vector = bv8

  /** The word a vector lives in: `vec >> 5`. */
  function Word(vec: Vector): (i: nat)
    ensures i < 8
  {
    if vec < 32 then 0 else if vec < 64 then 1 else if vec < 96 then 2 else if vec < 128 then 3
    else if vec < 160 then 4 else if vec < 192 then 5 else if vec < 224 then 6 else 7
  }

  /** Its bit in that word: `1 << (vec & 31)`. */
  function Mask(vec: Vector): bv32 {
    1 << (vec & 31) as bv32
  }

  datatype VecBits = VecBits(words: seq<bv32>)
  {
    predicate Valid() {
      |words| == 8
    }

    predicate Get(vec: Vector)
      requires Valid()
    {
      words[Word(vec)] & Mask(vec) != 0
    }

    function Set(vec: Vector): VecBits
      requires Valid()
    {
      VecBits(words[Word(vec) := words[Word(vec)] | Mask(vec)])
    }

    function Clear(vec: Vector): VecBits
      requires Valid()
    {
      VecBits(words[Word(vec) := words[Word(vec)] & !Mask(vec)])
    }
  }

  const EMPTY := VecBits([0, 0, 0, 0, 0, 0, 0, 0])

  // As a set.

  /** The vectors up to `v` whose bit is set. */
  ghost function UpTo(b: VecBits, v: Vector): set<Vector>
    requires b.Valid()
    decreases v
  {
    (if v == 0 then {} else UpTo(b, v - 1)) + (if b.Get(v) then {v} else {})
  }

  ghost function Vectors(b: VecBits): set<Vector>
    requires b.Valid()
  {
    UpTo(b, 255)
  }

  lemma {:induction false} UpToMembers(b: VecBits, v: Vector, u: Vector)
    requires b.Valid()
    ensures u in UpTo(b, v) <==> u <= v && b.Get(u)
    decreases v
  {
    if v != 0 {
      UpToMembers(b, v - 1, u);
    }
  }

  lemma Members(b: VecBits, u: Vector)
    requires b.Valid()
    ensures u in Vectors(b) <==> b.Get(u)
  {
    UpToMembers(b, 255, u);
  }

  lemma MasksDiffer(u: Vector, v: Vector, w: bv32)
    ensures (w | Mask(v)) & Mask(u) != 0 <==> (u & 31 == v & 31) || w & Mask(u) != 0
    ensures (w & !Mask(v)) & Mask(u) != 0 <==> (u & 31 != v & 31) && w & Mask(u) != 0
  {
  }

  lemma SameVector(u: Vector, v: Vector)
    ensures u == v <==> Word(u) == Word(v) && u & 31 == v & 31
  {
  }

  lemma SetGet(b: VecBits, v: Vector, u: Vector)
    requires b.Valid()
    ensures b.Set(v).Valid() && (b.Set(v).Get(u) <==> u == v || b.Get(u))
  {
    SameVector(u, v);
    MasksDiffer(u, v, b.words[Word(v)]);
    hide Word, Mask;
  }

  lemma ClearGet(b: VecBits, v: Vector, u: Vector)
    requires b.Valid()
    ensures b.Clear(v).Valid() && (b.Clear(v).Get(u) <==> u != v && b.Get(u))
  {
    SameVector(u, v);
    MasksDiffer(u, v, b.words[Word(v)]);
    hide Word, Mask;
  }

  /** Setting and clearing a bit add and remove its vector, and only it. */
  lemma SetAdds(b: VecBits, v: Vector)
    requires b.Valid()
    ensures b.Set(v).Valid() && Vectors(b.Set(v)) == Vectors(b) + {v}
  {
    hide Word, Mask, Vectors, VecBits.Get, VecBits.Set;
    SetGet(b, v, v);
    forall u ensures u in Vectors(b.Set(v)) <==> u in Vectors(b) + {v} {
      SetGet(b, v, u);
      Members(b, u);
      Members(b.Set(v), u);
    }
  }

  lemma ClearRemoves(b: VecBits, v: Vector)
    requires b.Valid()
    ensures b.Clear(v).Valid() && Vectors(b.Clear(v)) == Vectors(b) - {v}
  {
    hide Word, Mask, Vectors, VecBits.Get, VecBits.Clear;
    ClearGet(b, v, v);
    forall u ensures u in Vectors(b.Clear(v)) <==> u in Vectors(b) - {v} {
      ClearGet(b, v, u);
      Members(b, u);
      Members(b.Clear(v), u);
    }
  }

  lemma EmptyHasNone()
    ensures Vectors(EMPTY) == {}
  {
    hide Vectors;
    forall u ensures u !in Vectors(EMPTY) {
      Members(EMPTY, u);
      assert (0 as bv32) & Mask(u) == 0;
    }
  }

  // The highest vector.

  /** `31 - w.leading_zeros()` for a non-zero word: its top set bit at or below `k`. */
  function TopBit(w: bv32, k: Vector): Vector
    decreases k
  {
    if w & Mask(k) != 0 || k == 0 then k else TopBit(w, k - 1)
  }

  lemma {:induction false} TopBitIsTop(w: bv32, k: Vector, j: Vector)
    requires j <= k < 32 && w & Mask(j) != 0
    ensures j <= TopBit(w, k) <= k
    decreases k
  {
    if w & Mask(k) == 0 {
      SmallerBit(j, k);
      TopBitIsTop(w, k - 1, j);
    }
  }

  lemma SmallerBit(j: Vector, k: Vector)
    ensures j <= k && j != k ==> k != 0 && j <= k - 1
    ensures k != 0 ==> k - 1 < k
  {
  }

  lemma {:induction false} TopBitIsSet(w: bv32, k: Vector)
    requires k < 32 && w != 0 && w >> (k as bv32) <= 1
    ensures TopBit(w, k) <= k && w & Mask(TopBit(w, k)) != 0
    decreases k
  {
    hide Mask;
    if w & Mask(k) == 0 {
      NoBitHere(w, k);
      SmallerBit(k, k);
      TopBitIsSet(w, k - 1);
    }
  }

  lemma NoBitHere(w: bv32, k: Vector)
    requires k < 32 && w != 0 && w >> (k as bv32) <= 1 && w & Mask(k) == 0
    ensures k != 0 && k - 1 < 32 && w >> ((k - 1) as bv32) <= 1
  {
  }

  lemma WholeWord(w: bv32)
    ensures w >> ((31 as Vector) as bv32) <= 1
  {
  }

  lemma TopOf(w: bv32)
    requires w != 0
    ensures TopBit(w, 31) < 32 && w & Mask(TopBit(w, 31)) != 0
  {
    hide Mask, TopBit;
    WholeWord(w);
    TopBitIsSet(w, 31);
  }

  /** The first vector of word `i`. */
  function Base(i: nat): Vector
    requires i < 8
  {
    if i == 0 then 0 else if i == 1 then 32 else if i == 2 then 64 else if i == 3 then 96
    else if i == 4 then 128 else if i == 5 then 160 else if i == 6 then 192 else 224
  }

  /** Scan the words downwards from `i` for one that is not zero. */
  function HighestFrom(b: VecBits, i: nat): Option<Vector>
    requires b.Valid() && i < 8
  {
    if b.words[i] != 0 then Some(Base(i) + TopBit(b.words[i], 31))
    else if i == 0 then None
    else HighestFrom(b, i - 1)
  }

  function Highest(b: VecBits): Option<Vector>
    requires b.Valid()
  {
    HighestFrom(b, 7)
  }

  lemma Compose(i: nat, k: Vector)
    requires i < 8 && k < 32
    ensures Word(Base(i) + k) == i && (Base(i) + k) & 31 == k
  {
  }

  lemma Compare(i: nat, k: Vector, u: Vector)
    requires i < 8 && k < 32
    ensures Word(u) == i && u & 31 <= k ==> u <= Base(i) + k
    ensures Word(u) < i ==> u <= Base(i) + k
  {
  }

  lemma MaskOfPosition(u: Vector)
    ensures Mask(u) == Mask(u & 31) && u & 31 <= 31 && u & 31 < 32
  {
  }

  lemma TopOfWord(w: bv32, i: nat, k: Vector, v: Vector)
    requires i < 8 && w != 0 && k == TopBit(w, 31) && v == Base(i) + k
    ensures Word(v) == i && w & Mask(v) != 0
  {
    hide Mask, Word, Base, TopBit;
    TopOf(w);
    Compose(i, k);
    SamePosition(v, k);
  }

  lemma SamePosition(v: Vector, k: Vector)
    requires v & 31 == k
    ensures Mask(v) == Mask(k)
  {
  }

  lemma BelowTopOfWord(w: bv32, i: nat, k: Vector, v: Vector, u: Vector)
    requires i < 8 && w != 0 && k == TopBit(w, 31) && v == Base(i) + k
    requires Word(u) < i || (Word(u) == i && w & Mask(u) != 0)
    ensures u <= v
  {
    hide Mask, Word, Base, TopBit;
    TopOf(w);
    if Word(u) == i {
      PositionBelowTop(w, k, u);
    }
    Compare(i, k, u);
  }

  lemma PositionBelowTop(w: bv32, k: Vector, u: Vector)
    requires w & Mask(u) != 0 && k == TopBit(w, 31)
    ensures u & 31 <= k
  {
    hide Mask, TopBit;
    MaskOfPosition(u);
    TopBitIsTop(w, 31, u & 31);
  }

  lemma {:induction false} HighestIsMember(b: VecBits, i: nat)
    requires b.Valid() && i < 8 && HighestFrom(b, i).Some?
    ensures b.Get(HighestFrom(b, i).value) && Word(HighestFrom(b, i).value) <= i
  {
    hide Word, Base, TopBit, Mask;
    if b.words[i] != 0 {
      TopOfWord(b.words[i], i, TopBit(b.words[i], 31), HighestFrom(b, i).value);
    } else if i > 0 {
      HighestIsMember(b, i - 1);
    }
  }

  lemma {:induction false} HighestIsBound(b: VecBits, i: nat, u: Vector)
    requires b.Valid() && i < 8 && b.Get(u) && Word(u) <= i
    ensures HighestFrom(b, i).Some? && u <= HighestFrom(b, i).value
  {
    hide Word, Base, TopBit, Mask;
    if b.words[i] != 0 {
      BelowTopOfWord(b.words[i], i, TopBit(b.words[i], 31), HighestFrom(b, i).value, u);
    } else {
      NotInEmptyWord(b, u);
      HighestIsBound(b, i - 1, u);
    }
  }

  lemma NotInEmptyWord(b: VecBits, u: Vector)
    requires b.Valid() && b.Get(u)
    ensures b.words[Word(u)] != 0
  {
    hide Word, Mask;
    NoBits(u);
  }

  lemma NoBits(u: Vector)
    ensures (0 as bv32) & Mask(u) == 0
  {
  }

  /** The bitmap's highest vector is the maximum of the set, if it has one. */
  lemma HighestIsMax(b: VecBits)
    requires b.Valid()
    ensures Highest(b).None? <==> Vectors(b) == {}
    ensures Highest(b).Some? ==>
              && Highest(b).value in Vectors(b)
              && forall u :: u in Vectors(b) ==> u <= Highest(b).value
  {
    hide Vectors, VecBits.Get, HighestFrom, Word;
    if Highest(b).Some? {
      HighestIsMember(b, 7);
      Members(b, Highest(b).value);
    }
    forall u | u in Vectors(b) ensures Highest(b).Some? && u <= Highest(b).value {
      Members(b, u);
      HighestIsBound(b, 7, u);
    }
  }
}
