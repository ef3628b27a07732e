/** The five bits of a 64-bit hash that choose the slot at each level (imhamt/src/hash.rs). */
module HashLevels {
  import opened SparseArray

  type Hash64 = h: nat | h < 0x1_0000_0000_0000_0000

  /** The levels of a trie; at level 13 the shift would wrap around. */
  const LEVELS: nat := 13

  function Shr(h: nat, n: nat): (r: nat)
    decreases n
  {
    if n == 0 then h else Shr(h / 2, n - 1)
  }

  function LevelIndex(h: Hash64, level: nat): (s: Slot) {
    Shr(h, (5 * level) % 64) % 32
  }

  lemma {:induction false} ShrFive(h: nat, n: nat)
    ensures Shr(h, n + 5) == Shr(h, n) / 32
    decreases n
  {
    if n == 0 {
      assert Shr(h, 5) == h / 2 / 2 / 2 / 2 / 2 by {
        assert Shr(h, 5) == Shr(h / 2, 4) == Shr(h / 2 / 2, 3) == Shr(h / 2 / 2 / 2, 2);
      }
    } else {
      ShrFive(h / 2, n - 1);
    }
  }

  /** Sixty bits leave four, and five more leave none. */
  lemma {:induction false} ShrBound(h: nat, level: nat, bound: nat)
    requires h < bound && level <= LEVELS
    ensures Shr(h, 5 * level) <= Bound(bound, level)
    decreases level
  {
    if level > 0 {
      ShrBound(h, level - 1, bound);
      ShrFive(h, 5 * (level - 1));
    }
  }

  function Bound(b: nat, level: nat): (r: nat) {
    if level == 0 then b else Bound(b, level - 1) / 32
  }

  lemma {:induction false} NothingLeft(h: Hash64)
    ensures Shr(h, 5 * LEVELS) == 0
  {
    ShrBound(h, LEVELS, 0x1_0000_0000_0000_0000);
    assert Bound(0x1_0000_0000_0000_0000, 13) == 0;
  }

  /** A path is the slots chosen at the first levels. */
  ghost predicate Matches(h: Hash64, path: seq<Slot>) {
    forall l :: 0 <= l < |path| ==> LevelIndex(h, l) == path[l]
  }

  lemma {:induction false} SameFrom(h: Hash64, g: Hash64, path: seq<Slot>, level: nat)
    requires |path| == LEVELS && level <= LEVELS && Matches(h, path) && Matches(g, path)
    ensures Shr(h, 5 * level) == Shr(g, 5 * level)
    decreases LEVELS - level
  {
    if level == LEVELS {
      NothingLeft(h);
      NothingLeft(g);
    } else {
      SameFrom(h, g, path, level + 1);
      LevelParts(h, level);
      LevelParts(g, level);
      assert LevelIndex(h, level) == path[level] == LevelIndex(g, level);
      SameParts(Shr(h, 5 * level), Shr(g, 5 * level));
    }
  }

  /** What is left of a hash at a level: the slot, and what is left at the next level. */
  lemma {:induction false} LevelParts(h: Hash64, level: nat)
    requires level < LEVELS
    ensures Shr(h, 5 * level) % 32 == LevelIndex(h, level)
    ensures Shr(h, 5 * level) / 32 == Shr(h, 5 * (level + 1))
  {
    ShrFive(h, 5 * level);
  }

  lemma {:induction false} SameParts(a: nat, b: nat)
    requires a % 32 == b % 32 && a / 32 == b / 32
    ensures a == b
  {
  }

  /** Unequal hashes differ at one of the levels 0 to 12. */
  lemma {:induction false} SamePathSameHash(h: Hash64, g: Hash64, path: seq<Slot>)
    requires |path| == LEVELS && Matches(h, path) && Matches(g, path)
    ensures h == g
  {
    SameFrom(h, g, path, 0);
  }

  lemma {:induction false} MatchesNext(h: Hash64, path: seq<Slot>)
    requires Matches(h, path)
    ensures Matches(h, path + [LevelIndex(h, |path|)])
  {
  }

  lemma {:induction false} MatchesLast(h: Hash64, path: seq<Slot>, s: Slot)
    requires Matches(h, path + [s])
    ensures Matches(h, path) && LevelIndex(h, |path|) == s
  {
    var longer := path + [s];
    assert forall l :: 0 <= l < |path| ==> path[l] == longer[l];
    assert longer[|path|] == s;
  }
}
