/** applySequenceOfRotations (Cube.java): solve the cube, then apply a list of rotations
    one after the other. */
module RotationSequences {
  import opened CubeSides
  import opened Cubes
  import opened Rotations
  import opened RotationLaws
  import opened SeqUtil

  /** Every rotation of the list fits a cube of size n. */
  predicate AllFit(n: int, rots: seq<Rotation>) {
    forall i :: 0 <= i < |rots| ==> Fits(n, rots[i])
  }

  /** Applies rots to c in list order. Colours are only moved, so the multiset of colours
      and legality are kept. */
  function ApplyAll(c: Cube, rots: seq<Rotation>): (r: Cube)
    requires Valid(c) && AllFit(c.size, rots)
    ensures Valid(r) && r.size == c.size
    ensures Bag(r) == Bag(c)
    ensures Legal(r) <==> Legal(c)
    decreases |rots|
  {
    if rots == [] then c
    else
      ApplyBag(c, rots[0]);
      ApplyAll(Apply(c, rots[0]), rots[1..])
  }

  /** Applying a + b is applying a, then b. */
  lemma {:induction false} ApplyAllAppend(c: Cube, a: seq<Rotation>, b: seq<Rotation>)
    requires Valid(c) && AllFit(c.size, a) && AllFit(c.size, b)
    ensures AllFit(c.size, a + b)
    ensures ApplyAll(c, a + b) == ApplyAll(ApplyAll(c, a), b)
    decreases |a|
  {
    if a == [] {
      assert a + b == b;
    } else {
      assert (a + b)[0] == a[0];
      assert (a + b)[1..] == a[1..] + b;
      ApplyAllAppend(Apply(c, a[0]), a[1..], b);
    }
  }

  /** applySequenceOfRotations: whatever the cube held before, the result is legal, and
      with no rotations it is solved. */
  function ApplySequence(c: Cube, rots: seq<Rotation>): (r: Cube)
    requires c.size > 0 && AllFit(c.size, rots)
    ensures Valid(r) && r.size == c.size && Legal(r)
    ensures rots == [] ==> IsSolved(r)
  {
    SolveLegal(c);
    ApplyAll(Solve(c), rots)
  }

  /** Extending the list by one rotation applies that rotation to the previous result. */
  lemma ApplySequenceSnoc(c: Cube, rots: seq<Rotation>, rot: Rotation)
    requires c.size > 0 && AllFit(c.size, rots) && Fits(c.size, rot)
    ensures AllFit(c.size, rots + [rot])
    ensures ApplySequence(c, rots + [rot]) == Apply(ApplySequence(c, rots), rot)
  {
    var s := ApplyAll(Solve(c), rots);
    ApplyAllAppend(Solve(c), rots, [rot]);
    assert ApplyAll(Apply(s, rot), []) == Apply(s, rot);
  }

  /** Applying a list that starts with rot is applying rot, then the rest. */
  lemma ApplyAllCons(c: Cube, rot: Rotation, rest: seq<Rotation>)
    requires Valid(c) && Fits(c.size, rot) && AllFit(c.size, rest)
    ensures AllFit(c.size, [rot] + rest)
    ensures ApplyAll(c, [rot] + rest) == ApplyAll(Apply(c, rot), rest)
  {
    assert ([rot] + rest)[1..] == rest;
  }

  /** A rotation applied a multiple of four times restores any cube. */
  lemma {:induction false} ApplyTurnsFour(c: Cube, rot: Rotation, k: nat)
    requires Valid(c) && Fits(c.size, rot)
    ensures AllFit(c.size, Repeat<Rotation>(rot, 4 * k))
    ensures ApplyAll(c, Repeat<Rotation>(rot, 4 * k)) == c
  {
    if k > 0 {
      var rest := Repeat<Rotation>(rot, 4 * (k - 1));
      assert Repeat<Rotation>(rot, 4 * k) == [rot] + ([rot] + ([rot] + ([rot] + rest)));
      var c1 := Apply(c, rot);
      var c2 := Apply(c1, rot);
      var c3 := Apply(c2, rot);
      ApplyAllCons(c3, rot, rest);
      ApplyAllCons(c2, rot, [rot] + rest);
      ApplyAllCons(c1, rot, [rot] + ([rot] + rest));
      ApplyAllCons(c, rot, [rot] + ([rot] + ([rot] + rest)));
      ApplyFour(c, rot);
      ApplyTurnsFour(c, rot, k - 1);
    } else {
      assert Repeat<Rotation>(rot, 0) == [];
    }
  }

  /** k pairs of a rotation followed by its antagonist. */
  function AntagonistPairs(n: int, rot: Rotation, k: nat): (rots: seq<Rotation>)
    ensures |rots| == 2 * k
  {
    seq(2 * k, i => if i % 2 == 0 then rot else Antagonist(n, rot))
  }

  /** A rotation followed by its antagonist restores the cube. */
  lemma ApplyThenAntagonist(c: Cube, rot: Rotation)
    requires Valid(c) && Fits(c.size, rot)
    ensures Apply(Apply(c, rot), Antagonist(c.size, rot)) == c
  {
    var a := Antagonist(c.size, rot);
    OppositeInvolution(rot.side);
    assert Antagonist(c.size, a) == rot;
    ApplyAntagonist(c, a);
  }

  /** A leading (rotation, antagonist) pair leaves the cube as it was for the rest of the list. */
  lemma ApplyPair(c: Cube, rot: Rotation, rest: seq<Rotation>)
    requires Valid(c) && Fits(c.size, rot) && AllFit(c.size, rest)
    ensures AllFit(c.size, [rot, Antagonist(c.size, rot)] + rest)
    ensures ApplyAll(c, [rot, Antagonist(c.size, rot)] + rest) == ApplyAll(c, rest)
  {
    var a := Antagonist(c.size, rot);
    assert [rot, a] + rest == [rot] + ([a] + rest);
    ApplyAllCons(Apply(c, rot), a, rest);
    ApplyAllCons(c, rot, [a] + rest);
    ApplyThenAntagonist(c, rot);
  }

  /** One more pair at the front of the list changes nothing. */
  lemma ApplyPairsStep(c: Cube, rot: Rotation, k: nat)
    requires Valid(c) && Fits(c.size, rot) && k > 0
    requires AllFit(c.size, AntagonistPairs(c.size, rot, k - 1))
    ensures AllFit(c.size, AntagonistPairs(c.size, rot, k))
    ensures ApplyAll(c, AntagonistPairs(c.size, rot, k)) == ApplyAll(c, AntagonistPairs(c.size, rot, k - 1))
  {
    var a := Antagonist(c.size, rot);
    var rest := AntagonistPairs(c.size, rot, k - 1);
    assert AntagonistPairs(c.size, rot, k) == [rot, a] + rest by {
      forall i | 2 <= i < 2 * k
        ensures AntagonistPairs(c.size, rot, k)[i] == rest[i - 2]
      {
        assert (i - 2) % 2 == i % 2;
      }
    }
    ApplyPair(c, rot, rest);
  }

  /** Any number of (rotation, antagonist) pairs restores the cube. */
  lemma {:induction false} ApplyAntagonistPairs(c: Cube, rot: Rotation, k: nat)
    requires Valid(c) && Fits(c.size, rot)
    ensures AllFit(c.size, AntagonistPairs(c.size, rot, k))
    ensures ApplyAll(c, AntagonistPairs(c.size, rot, k)) == c
  {
    if k > 0 {
      ApplyAntagonistPairs(c, rot, k - 1);
      ApplyPairsStep(c, rot, k);
    } else {
      assert AntagonistPairs(c.size, rot, 0) == [];
    }
  }
}
