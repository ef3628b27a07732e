/**
 Sparse arrays of up to 32 elements: a bitmap says which slots are taken, a vector holds the elements in slot order
 (imhamt/src/bitmap.rs, imhamt/src/helper.rs).
 */
module SparseArray {
  import opened Wrappers
  import opened Powers

  /** A slot of a node. */
  type Slot = b: nat | b < 32

  /** A 32-bit word by its bits, the lowest first. */
  type Word = w: seq<bool> | |w| == 32 witness seq(32, _ => false)

  // ----- bits

  function And(a: Word, b: Word, n: nat := 32): (w: seq<bool>)
    requires n <= 32
    ensures |w| == n && forall i :: 0 <= i < n ==> w[i] == (a[i] && b[i])
  {
    if n == 0 then [] else And(a, b, n - 1) + [a[n - 1] && b[n - 1]]
  }

  function Or(a: Word, b: Word, n: nat := 32): (w: seq<bool>)
    requires n <= 32
    ensures |w| == n && forall i :: 0 <= i < n ==> w[i] == (a[i] || b[i])
  {
    if n == 0 then [] else Or(a, b, n - 1) + [a[n - 1] || b[n - 1]]
  }

  function Not(a: Word, n: nat := 32): (w: seq<bool>)
    requires n <= 32
    ensures |w| == n && forall i :: 0 <= i < n ==> w[i] == !a[i]
  {
    if n == 0 then [] else Not(a, n - 1) + [!a[n - 1]]
  }

  predicate IsZero(w: Word) {
    forall i :: 0 <= i < 32 ==> !w[i]
  }

  /** One bit, shifted left to the slot. */
  function Mask(s: Slot): (w: Word)
    ensures forall i :: 0 <= i < 32 ==> w[i] == (i == s)
  {
    seq(32, i => i == s)
  }

  /** The mask of a slot minus one: the bits below the slot. */
  function MaskMinusOne(s: Slot): (w: Word)
    ensures forall i :: 0 <= i < 32 ==> w[i] == (i < s)
  {
    seq(32, i => i < s)
  }

  /** How many of the lowest n bits are set. */
  function Ones(w: Word, n: nat): (count: nat)
    requires n <= 32
    ensures count <= n
  {
    if n == 0 then 0 else Ones(w, n - 1) + if w[n - 1] then 1 else 0
  }

  function CountOnes(w: Word): (count: nat) {
    Ones(w, 32)
  }

  /** The number that the lowest n bits stand for. */
  function Number(w: Word, n: nat): (v: nat)
    requires n <= 32
  {
    if n == 0 then 0 else Number(w, n - 1) + if w[n - 1] then Pow2(n - 1) else 0
  }

  /** The two masks are the words their names say. */
  lemma {:induction false} MaskNumbers(s: Slot, n: nat)
    requires n <= 32
    ensures Number(Mask(s), n) == if n <= s then 0 else Pow2(s)
    ensures Number(MaskMinusOne(s), n) + 1 == if n <= s then Pow2(n) else Pow2(s)
  {
    if n > 0 {
      MaskNumbers(s, n - 1);
    }
  }

  lemma {:induction false} OnesBelow(w: Word, s: Slot, n: nat)
    requires n <= 32
    ensures Ones(And(w, MaskMinusOne(s)), n) == if n <= s then Ones(w, n) else Ones(w, s)
  {
    if n > 0 {
      OnesBelow(w, s, n - 1);
    }
  }

  lemma {:induction false} OnesSet(w: Word, s: Slot, n: nat)
    requires n <= 32 && !w[s]
    ensures Ones(Or(w, Mask(s)), n) == Ones(w, n) + if n > s then 1 else 0
  {
    if n > 0 {
      OnesSet(w, s, n - 1);
    }
  }

  lemma {:induction false} OnesCleared(w: Word, s: Slot, n: nat)
    requires n <= 32 && w[s]
    ensures Ones(And(w, Not(Mask(s))), n) == Ones(w, n) - if n > s then 1 else 0
  {
    if n > 0 {
      OnesCleared(w, s, n - 1);
    }
  }

  lemma {:induction false} OnesMonotone(w: Word, m: nat, n: nat)
    requires m <= n <= 32
    ensures Ones(w, m) <= Ones(w, n)
  {
    if m < n {
      OnesMonotone(w, m, n - 1);
    }
  }

  lemma {:induction false} NoOnes(w: Word, n: nat)
    requires n <= 32
    ensures Ones(w, n) == 0 <==> forall i :: 0 <= i < n ==> !w[i]
  {
    if n > 0 {
      NoOnes(w, n - 1);
    }
  }

  // ----- positions in the vector

  /** The value that stands for an empty slot. */
  const NOT_FOUND: nat := 0xff

  predicate IsSet(w: Word, s: Slot)
    ensures IsSet(w, s) <==> w[s]
  {
    assert And(w, Mask(s))[s] == w[s];
    !IsZero(And(w, Mask(s)))
  }

  lemma {:induction false} Positions(w: Word, s: Slot)
    ensures CountOnes(And(w, MaskMinusOne(s))) == Ones(w, s) <= CountOnes(w)
    ensures w[s] ==> Ones(w, s) < CountOnes(w)
  {
    OnesBelow(w, s, 32);
    OnesMonotone(w, s, 32);
    if w[s] {
      OnesMonotone(w, s + 1, 32);
    }
  }

  /** The position of a slot is the number of slots taken before it; the marker for an empty slot is no position. */
  function GetIndexSparse(w: Word, s: Slot): (at: nat)
    ensures at == NOT_FOUND <==> !w[s]
    ensures w[s] ==> at == Ones(w, s) < CountOnes(w)
  {
    assert And(w, Mask(s))[s] == w[s];
    Positions(w, s);
    if IsZero(And(w, Mask(s))) then NOT_FOUND else CountOnes(And(w, MaskMinusOne(s)))
  }

  /** Where the element of a slot is to be inserted. */
  function GetSparsePos(w: Word, s: Slot): (at: nat)
    ensures at == Ones(w, s) <= CountOnes(w)
    ensures w[s] ==> at < CountOnes(w)
  {
    Positions(w, s);
    CountOnes(And(w, MaskMinusOne(s)))
  }

  /** Later slots have later positions. */
  lemma {:induction false} PositionsIncrease(w: Word, s: Slot, t: Slot)
    requires s < t && w[s]
    ensures Ones(w, s) < Ones(w, t)
  {
    OnesMonotone(w, s + 1, t);
  }

  // ----- copies of the vector

  /** All elements, with a new one at a position. */
  method CloneArrayAndInsertAtPos<A>(v: seq<A>, a: A, pos: nat) returns (r: seq<A>)
    requires pos <= |v|
    ensures r == InsertAt(v, a, pos)
  {
    r := [];
    r := r + v[0..pos];
    r := r + [a];
    r := r + v[pos..];
  }

  /** All elements, with the one at a position replaced. */
  method CloneArrayAndSetAtPos<A>(v: seq<A>, a: A, pos: nat) returns (r: seq<A>)
    requires pos < |v|
    ensures r == v[pos := a]
  {
    r := [];
    if pos > 0 {
      r := r + v[0..pos];
    }
    r := r + [a];
    if pos + 1 < |v| {
      r := r + v[pos + 1..];
    }
  }

  function InsertAt<A>(v: seq<A>, a: A, pos: nat): (r: seq<A>)
    requires pos <= |v|
  {
    v[..pos] + [a] + v[pos..]
  }

  function RemoveAt<A>(v: seq<A>, pos: nat): (r: seq<A>)
    requires pos < |v|
  {
    v[..pos] + v[pos + 1..]
  }

  // ----- the sparse array

  datatype Sparse<A> = Sparse(bitmap: Word, items: seq<A>) {

    ghost predicate Valid() {
      |items| == CountOnes(bitmap)
    }

    /** The element in a slot. */
    function At(s: Slot): (r: Option<A>)
      requires Valid()
    {
      if GetIndexSparse(bitmap, s) == NOT_FOUND then None else Some(items[GetIndexSparse(bitmap, s)])
    }

    function SetAt(s: Slot, a: A): (r: Sparse<A>)
      requires Valid() && !bitmap[s]
    {
      Sparse(Or(bitmap, Mask(s)), InsertAt(items, a, GetSparsePos(bitmap, s)))
    }

    function ReplaceAt(at: nat, a: A): (r: Sparse<A>)
      requires at < |items|
    {
      Sparse(bitmap, items[at := a])
    }

    /** Nothing is left when the last element goes. */
    function ClearAt(s: Slot): (r: Option<Sparse<A>>)
      requires Valid() && bitmap[s]
    {
      if IsZero(And(bitmap, Not(Mask(s)))) then None
      else Some(Sparse(And(bitmap, Not(Mask(s))), RemoveAt(items, GetSparsePos(bitmap, s))))
    }

    function ClearOrReplaceAt(s: Slot, child: Option<A>): (r: Option<Sparse<A>>)
      requires Valid() && bitmap[s]
    {
      match child
      case None => ClearAt(s)
      case Some(a) => Some(ReplaceAt(GetIndexSparse(bitmap, s), a))
    }
  }

  function Empty<A>(): (r: Sparse<A>) {
    Sparse(seq(32, _ => false), [])
  }

  lemma {:induction false} EmptyAt<A>(s: Slot)
    ensures Empty<A>().Valid() && Empty<A>().At(s) == None
  {
    NoOnes(Empty<A>().bitmap, 32);
  }

  lemma {:induction false} EmptyValid<A>(s: Slot)
    ensures Empty<A>().Valid() && !Empty<A>().bitmap[s]
  {
    EmptyAt<A>(s);
  }

  /** One element in one slot. */
  lemma {:induction false} SingletonSlots<A>(s: Slot, a: A)
    requires Empty<A>().Valid() && !Empty<A>().bitmap[s]
    ensures Empty<A>().SetAt(s, a).Valid() && forall t: Slot :: Empty<A>().SetAt(s, a).bitmap[t] <==> t == s
  {
    OnesSet(Empty<A>().bitmap, s, 32);
  }

  lemma {:induction false} InsertedAt<A>(v: seq<A>, a: A, pos: nat, i: nat)
    requires pos <= |v| && i <= |v|
    ensures InsertAt(v, a, pos)[i] == if i < pos then v[i] else if i == pos then a else v[i - 1]
  {
  }

  /** The bits and positions after a slot is filled. */
  lemma {:induction false} SetPositions(w: Word, s: Slot, t: Slot)
    requires !w[s]
    ensures CountOnes(Or(w, Mask(s))) == CountOnes(w) + 1
    ensures Or(w, Mask(s))[t] == (t == s || w[t])
    ensures Ones(Or(w, Mask(s)), t) == Ones(w, t) + if t > s then 1 else 0
    ensures t < s && w[t] ==> Ones(w, t) < Ones(w, s)
    ensures s <= t ==> Ones(w, s) <= Ones(w, t)
    ensures Ones(w, s) <= CountOnes(w) && Ones(w, t) <= CountOnes(w)
  {
    OnesMonotone(w, s, 32);
    OnesMonotone(w, t, 32);
    OnesSet(w, s, 32);
    OnesSet(w, s, t);
    if t < s && w[t] {
      PositionsIncrease(w, t, s);
    }
    if s <= t {
      OnesMonotone(w, s, t);
    }
  }

  /** Filling an empty slot changes that slot only. */
  lemma {:induction false} SetAtAt<A>(x: Sparse<A>, s: Slot, a: A, t: Slot)
    requires x.Valid() && !x.bitmap[s]
    ensures x.SetAt(s, a).Valid() && x.SetAt(s, a).At(t) == if t == s then Some(a) else x.At(t)
  {
    SetPositions(x.bitmap, s, t);
    if t == s || x.bitmap[t] {
      InsertedAt(x.items, a, Ones(x.bitmap, s), GetIndexSparse(Or(x.bitmap, Mask(s)), t));
    }
  }

  /** Replacing the element of a taken slot changes that slot only. */
  lemma {:induction false} ReplaceAtAt<A>(x: Sparse<A>, s: Slot, a: A, t: Slot)
    requires x.Valid() && x.bitmap[s]
    ensures x.ReplaceAt(GetIndexSparse(x.bitmap, s), a).Valid()
    ensures x.ReplaceAt(GetIndexSparse(x.bitmap, s), a).At(t) == if t == s then Some(a) else x.At(t)
  {
    if x.bitmap[t] {
      if t < s {
        PositionsIncrease(x.bitmap, t, s);
      } else if s < t {
        PositionsIncrease(x.bitmap, s, t);
      }
    }
  }

  lemma {:induction false} ClearedEmpty(w: Word, s: Slot, t: Slot)
    requires w[s] && IsZero(And(w, Not(Mask(s))))
    ensures w[t] <==> t == s
  {
    assert !And(w, Not(Mask(s)))[t];
  }

  /** Emptying a slot changes that slot only. */
  lemma {:induction false} ClearAtAt<A>(x: Sparse<A>, s: Slot, t: Slot)
    requires x.Valid() && x.bitmap[s]
    ensures x.ClearAt(s) == None ==> (x.At(t).Some? <==> t == s)
    ensures x.ClearAt(s).Some? ==> x.ClearAt(s).value.Valid() && !IsZero(x.ClearAt(s).value.bitmap)
    ensures x.ClearAt(s).Some? ==> x.ClearAt(s).value.At(t) == if t == s then None else x.At(t)
  {
    if x.ClearAt(s) == None {
      ClearedEmpty(x.bitmap, s, t);
    }
    var rest := And(x.bitmap, Not(Mask(s)));
    OnesCleared(x.bitmap, s, 32);
    OnesCleared(x.bitmap, s, t);
    if t != s && x.bitmap[t] {
      if t < s {
        PositionsIncrease(x.bitmap, t, s);
      } else {
        PositionsIncrease(x.bitmap, s, t);
      }
    }
  }
}
