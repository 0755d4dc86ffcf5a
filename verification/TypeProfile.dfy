/** The cell in which the interpreter profiles the klass of the objects it sees at one place.
Words are sequences of bits of any common width, lowest bit first. */
module TypeProfile {
  import opened Options

  type Word = seq<bool>

  predicate IsZero(w: Word) { forall i | 0 <= i < |w| :: !w[i] }

  /** Bit 0 says that a null was seen and bit 1 that the klass is unknown. */
  predicate NullSeen(w: Word)
    requires |w| >= 2
  {
    w[0]
  }

  predicate Unknown(w: Word)
    requires |w| >= 2
  {
    w[1]
  }

  function Klass(w: Word): Word
    requires |w| >= 2
  {
    w[2..]
  }

  /** Klass pointers are aligned and not null. */
  predicate IsKlass(k: Word) { |k| >= 2 && !k[0] && !k[1] && !IsZero(Klass(k)) }

  function Xor(a: Word, b: Word): (r: Word)
    requires |a| == |b|
    ensures |r| == |a|
  {
    seq(|a|, i requires 0 <= i < |a| => a[i] != b[i])
  }

  /** The exclusive or of two words is zero just when they are equal. */
  lemma XorZero(a: Word, b: Word)
    requires |a| == |b|
    ensures IsZero(Xor(a, b)) <==> a == b
    ensures IsZero(b) ==> Xor(a, b) == a
  {
    if IsZero(Xor(a, b)) {
      forall i | 0 <= i < |a| ensures a[i] == b[i] { assert !Xor(a, b)[i]; }
    }
  }

  /** The exclusive or of klass and cell shows the status bits of the cell, and the second one
      gives the klass back. */
  lemma XorFields(k: Word, cell: Word)
    requires IsKlass(k) && |k| == |cell|
    ensures NullSeen(Xor(k, cell)) == NullSeen(cell) && Unknown(Xor(k, cell)) == Unknown(cell)
    ensures Klass(Xor(k, cell)) == Xor(Klass(k), Klass(cell))
    ensures Xor(Xor(k, cell), cell) == k
  {
  }

  /** A cell that holds no klass and is not unknown is zero or has the null bit alone. */
  predicate IsBlank(w: Word) { IsZero(w) || (|w| >= 2 && w[0] && IsZero(w[1..])) }

  lemma Blank(w: Word)
    requires |w| >= 2
    ensures IsBlank(w) <==> IsZero(Klass(w)) && !Unknown(w)
  {
    assert forall i | 2 <= i < |w| :: w[i] == Klass(w)[i - 2] == w[1..][i - 1];
    assert w[1..][0] == w[1];
    if IsZero(Klass(w)) && !Unknown(w) {
      assert forall i | 1 <= i < |w| :: !w[i];
      assert IsZero(w[1..]);
    }
  }

  /** What the emitted code does to the cell, register by register, for a null reference or an
      object of the given klass. */
  method ProfileObjType(seen: Option<Word>, cell: Word) returns (r: Word)
    requires |cell| >= 2 && (seen.Some? ==> IsKlass(seen.value) && |seen.value| == |cell|)
    ensures |r| == |cell|
    ensures NullSeen(r) == (NullSeen(cell) || seen.None?)
    ensures Klass(r) == if IsZero(Klass(cell)) && !Unknown(cell) && seen.Some? then Klass(seen.value) else Klass(cell)
    ensures Unknown(r) ==
      (Unknown(cell) || (seen.Some? && !IsZero(Klass(cell)) && Klass(cell) != Klass(seen.value)))
  {
    hide Xor;
    if seen.None? {
      return cell[0 := true];
    }
    XorFields(seen.value, cell);
    XorZero(Klass(seen.value), Klass(cell));
    Blank(cell);
    var obj := seen.value;
    obj := Xor(obj, cell);
    if IsZero(Klass(obj)) {
      return cell;
    }
    if Unknown(obj) {
      return cell;
    }
    if IsBlank(cell) {
      return obj;
    }
    obj := Xor(obj, cell);
    if IsZero(Klass(obj)) {
      return cell;
    }
    return cell[1 := true];
  }

  /** The first klass among the observations. */
  function FirstKlass(seen: seq<Option<Word>>): Option<Word> {
    if seen == [] then None else if seen[0].Some? then seen[0] else FirstKlass(seen[1..])
  }

  /** Two different klasses among the observations. */
  ghost predicate Mixed(seen: seq<Option<Word>>) {
    exists i, j :: 0 <= i < |seen| && 0 <= j < |seen| && seen[i].Some? && seen[j].Some? && seen[i] != seen[j]
  }

  lemma {:induction false} FirstKlassNext(seen: seq<Option<Word>>, o: Option<Word>)
    ensures FirstKlass(seen + [o]) == if FirstKlass(seen).Some? then FirstKlass(seen) else o
  {
    if seen == [] {
      assert seen + [o] == [o] && [o][1..] == [];
    } else {
      assert (seen + [o])[1..] == seen[1..] + [o];
      FirstKlassNext(seen[1..], o);
    }
  }

  /** Some observation is the first klass; without one there are only nulls. */
  lemma {:induction false} FirstKlassIn(seen: seq<Option<Word>>)
    ensures FirstKlass(seen).Some? ==> FirstKlass(seen) in seen
    ensures FirstKlass(seen).None? ==> !Mixed(seen) && forall i :: 0 <= i < |seen| ==> seen[i].None?
  {
    if seen != [] && seen[0].None? {
      FirstKlassIn(seen[1..]);
      assert forall i :: 1 <= i < |seen| ==> seen[i] == seen[1..][i - 1];
    }
  }

  lemma MixedNext(seen: seq<Option<Word>>, o: Option<Word>)
    ensures Mixed(seen + [o]) <==>
      Mixed(seen) || (o.Some? && FirstKlass(seen).Some? && FirstKlass(seen) != o)
  {
    var s, first := seen + [o], FirstKlass(seen);
    FirstKlassIn(seen);
    if Mixed(seen) {
      var i, j :| 0 <= i < |seen| && 0 <= j < |seen| && seen[i].Some? && seen[j].Some? && seen[i] != seen[j];
      assert s[i] == seen[i] && s[j] == seen[j];
    } else if first.Some? {
      var i :| 0 <= i < |seen| && seen[i] == first;
      assert s[i] == first && s[|seen|] == o;
      assert forall j :: 0 <= j < |seen| && seen[j].Some? ==> seen[j] == first;
      assert forall j :: 0 <= j < |seen| ==> s[j] == seen[j];
    } else {
      assert forall j :: 0 <= j < |seen| ==> s[j] == seen[j];
    }
  }

  lemma KlassEqual(a: Word, b: Word)
    requires IsKlass(a) && IsKlass(b) && |a| == |b|
    ensures a == b <==> Klass(a) == Klass(b)
  {
    assert a == [a[0], a[1]] + Klass(a) && b == [b[0], b[1]] + Klass(b);
  }

  /** What a cell should hold after a series of observations: whether a null was among them, the
      first klass, and whether there were two different klasses. */
  ghost predicate Records(cell: Word, seen: seq<Option<Word>>)
    requires |cell| >= 2
  {
    && (NullSeen(cell) <==> None in seen)
    && (FirstKlass(seen).None? ==> IsZero(Klass(cell)))
    && (FirstKlass(seen).Some? ==> |FirstKlass(seen).value| == |cell| && Klass(cell) == Klass(FirstKlass(seen).value))
    && (Unknown(cell) <==> Mixed(seen))
  }

  /** From an empty cell, any series of observations is recorded. */
  method ProfileAll(seen: seq<Option<Word>>, width: nat) returns (cell: Word)
    requires width >= 2
    requires forall i | 0 <= i < |seen| :: seen[i].Some? ==> IsKlass(seen[i].value) && |seen[i].value| == width
    ensures |cell| == width && Records(cell, seen)
  {
    hide IsKlass, Mixed;
    cell := seq(width, i => false);
    FirstKlassIn([]);
    for n := 0 to |seen|
      invariant |cell| == width && Records(cell, seen[..n])
    {
      var before := seen[..n];
      assert seen[..n + 1] == before + [seen[n]];
      FirstKlassNext(before, seen[n]);
      FirstKlassIn(before);
      MixedNext(before, seen[n]);
      if FirstKlass(before).Some? {
        assert IsKlass(FirstKlass(before).value);
        NotZero(FirstKlass(before).value);
        if seen[n].Some? {
          KlassEqual(FirstKlass(before).value, seen[n].value);
        }
      }
      cell := ProfileObjType(seen[n], cell);
    }
    assert seen[..|seen|] == seen;
  }

  lemma NotZero(k: Word)
    requires IsKlass(k)
    ensures |k| >= 2 && !IsZero(Klass(k))
  {
  }
}
