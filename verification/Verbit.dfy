/** The correction passes of hda-tools/verbit.sh: every pin gets its own association in its 71c verb,
    with sequence 0; the misc nibble of 71d is cleared; the location nibble of 71f becomes 0 or 1. */
module Verbit {
  import opened HexText

  /** Eight lower-case hex digits: address, node (2), command (3), payload (2). */
  predicate IsVerb(v: string) {
    |v| == 8 && forall c :: c in v ==> IsDigit(c)
  }

  ghost predicate AllVerbs(vs: seq<string>) {
    forall i :: 0 <= i < |vs| ==> IsVerb(vs[i])
  }

  // ---------------------------------------------------------------- what the 71c pass computes

  /** The association nibble of a 71c verb, with 0 counted as 1. */
  function Assoc(verb: string): nat
    requires IsVerb(verb)
    ensures 1 <= Assoc(verb) < 16
  {
    ValueReadsBack(verb[6]);
    if verb[6] == '0' then 1 else DigitValue(verb[6])
  }

  function Assocs(verbc: seq<string>): (r: seq<nat>)
    requires AllVerbs(verbc)
    ensures |r| == |verbc|
  {
    seq(|verbc|, i requires 0 <= i < |verbc| => Assoc(verbc[i]))
  }

  /** The association values i, i + 1, ..., 14 that no pin uses. */
  function Unused(assoc: seq<nat>, i: nat): seq<nat>
    requires i <= 15
    decreases 15 - i
  {
    if i == 15 then [] else (if i in assoc then [] else [i]) + Unused(assoc, i + 1)
  }

  predicate IsRepeat(assoc: seq<nat>, i: nat)
    requires i < |assoc|
  {
    assoc[i] in assoc[..i]
  }

  /** The number of pins before pin n whose association had occurred before. */
  function Repeats(assoc: seq<nat>, n: nat): nat
    requires n <= |assoc|
  {
    if n == 0 then 0 else Repeats(assoc, n - 1) + if IsRepeat(assoc, n - 1) then 1 else 0
  }

  /** A word of a shell list: a hex digit, or empty after the unused values have run out. */
  datatype ListWord = Digit(d: nat) | Blank

  function Shown(w: ListWord): string
    requires w.Digit? ==> w.d < 16
  {
    if w.Digit? then [HexDigit(w.d)] else ""
  }

  /** The association of pin i after the pass: the k-th repeat takes the k-th unused value. */
  function NewAssoc(assoc: seq<nat>, i: nat): ListWord
    requires i < |assoc|
  {
    var unused, k := Unused(assoc, 1), Repeats(assoc, i);
    if !IsRepeat(assoc, i) then Digit(assoc[i])
    else if k < |unused| then Digit(unused[k])
    else Blank
  }

  lemma UnusedStep(assoc: seq<nat>, i: nat)
    requires i <= 15
    ensures Unused(assoc, i) == if i == 15 then [] else (if i in assoc then [] else [i]) + Unused(assoc, i + 1)
  {
  }

  lemma {:induction false} UnusedHas(assoc: seq<nat>, i: nat, x: nat)
    requires i <= 15
    ensures x in Unused(assoc, i) <==> i <= x < 15 && x !in assoc
    decreases 15 - i
  {
    if i < 15 {
      UnusedHas(assoc, i + 1, x);
      hide Unused;
      UnusedStep(assoc, i);
    }
  }

  lemma {:induction false} UnusedAscends(assoc: seq<nat>, i: nat)
    requires i <= 15
    ensures var u := Unused(assoc, i); forall j, k :: 0 <= j < k < |u| ==> u[j] < u[k]
    decreases 15 - i
  {
    hide Unused;
    UnusedStep(assoc, i);
    if i < 15 {
      UnusedAscends(assoc, i + 1);
      var rest, u := Unused(assoc, i + 1), Unused(assoc, i);
      if i !in assoc {
        forall j, k | 0 <= j < k < |u| ensures u[j] < u[k] {
          UnusedHas(assoc, i + 1, rest[k - 1]);
        }
      }
    }
  }

  lemma UnusedValues(assoc: seq<nat>, i: nat)
    requires i <= 15
    ensures var u := Unused(assoc, i);
            && (forall x :: x in u <==> i <= x < 15 && x !in assoc)
            && (forall j, k :: 0 <= j < k < |u| ==> u[j] < u[k])
  {
    hide Unused;
    forall x: nat ensures x in Unused(assoc, i) <==> i <= x < 15 && x !in assoc {
      UnusedHas(assoc, i, x);
    }
    UnusedAscends(assoc, i);
  }

  lemma UnusedAt(assoc: seq<nat>, k: nat)
    ensures var u := Unused(assoc, 1); k < |u| ==> 1 <= u[k] < 15 && u[k] !in assoc
  {
    hide Unused;
    UnusedValues(assoc, 1);
    var u := Unused(assoc, 1);
    if k < |u| {
      assert u[k] in u;
    }
  }

  lemma NewAssocBound(assoc: seq<nat>, i: nat)
    requires i < |assoc| && assoc[i] < 16
    ensures var w := NewAssoc(assoc, i); w.Digit? ==> w.d < 16
  {
    hide Unused, Repeats, IsRepeat;
    UnusedValues(assoc, 1);
    UnusedAt(assoc, Repeats(assoc, i));
  }

  function NewVerb(verbc: seq<string>, i: nat): string
    requires AllVerbs(verbc) && i < |verbc|
  {
    var assoc := Assocs(verbc);
    assert Assocs(verbc)[i] == Assoc(verbc[i]);
    NewAssocBound(assoc, i);
    if IsRepeat(assoc, i) then verbc[i][..6] + Shown(NewAssoc(assoc, i)) + "0"
    else verbc[i][..7] + "0"
  }

  /** The corrected 71c verbs. */
  function Corrected(verbc: seq<string>): (r: seq<string>)
    requires AllVerbs(verbc)
    ensures |r| == |verbc|
  {
    seq(|verbc|, i requires 0 <= i < |verbc| => NewVerb(verbc, i))
  }

  // ---------------------------------------------------------------- the script

  lemma SeenIffRepeat(assoc: seq<nat>, i: nat, seen: seq<ListWord>)
    requires i < |assoc| && |seen| == i && forall k :: 0 <= k < i ==> seen[k] == NewAssoc(assoc, k)
    ensures Digit(assoc[i]) in seen <==> IsRepeat(assoc, i)
  {
    hide Unused, Repeats;
    UnusedValues(assoc, 1);
    if IsRepeat(assoc, i) {
      var k := First(assoc, assoc[i], i);
      assert !IsRepeat(assoc, k);
      assert seen[k] == Digit(assoc[i]);
    }
    if Digit(assoc[i]) in seen {
      var k :| 0 <= k < i && seen[k] == Digit(assoc[i]);
      UnusedAt(assoc, Repeats(assoc, k));
      assert !IsRepeat(assoc, k);
      assert assoc[k] == assoc[i] && assoc[..i][k] == assoc[k];
    }
  }

  /** The first of the first n positions that holds a. */
  lemma {:induction false} First(assoc: seq<nat>, a: nat, n: nat) returns (k: nat)
    requires n <= |assoc| && a in assoc[..n]
    ensures k < n && assoc[k] == a && a !in assoc[..k]
  {
    assert assoc[..n] == assoc[..n - 1] + [assoc[n - 1]];
    if a in assoc[..n - 1] {
      k := First(assoc, a, n - 1);
    } else {
      k := n - 1;
    }
  }

  /** First loop: the association nibbles, with 0 changed to 1. */
  method ReadAssociations(verbc: seq<string>) returns (assoc: seq<ListWord>)
    requires AllVerbs(verbc)
    ensures |assoc| == |verbc| && forall k :: 0 <= k < |verbc| ==> assoc[k] == Digit(Assocs(verbc)[k])
  {
    assoc := [];
    var i := 0;
    while i < |verbc|
      invariant 0 <= i <= |verbc| && |assoc| == i
      invariant forall k :: 0 <= k < i ==> assoc[k] == Digit(Assocs(verbc)[k])
    {
      assert IsVerb(verbc[i]);
      var a := DigitValue(verbc[i][6]);
      ghost var expected := Assoc(verbc[i]);
      ValueReadsBack(verbc[i][6]);
      if verbc[i][6] == '0' {
        a := 1;
      }
      assoc := assoc + [Digit(a)];
      i := i + 1;
    }
  }

  /** Second loop: the values 1 to 14 that do not occur. */
  method FindUnused(assoc: seq<ListWord>, ghost assoc0: seq<nat>) returns (unused: seq<nat>)
    requires |assoc| == |assoc0| && forall k :: 0 <= k < |assoc| ==> assoc[k] == Digit(assoc0[k])
    ensures unused == Unused(assoc0, 1)
  {
    hide Unused;
    unused := [];
    var i := 1;
    while i < 15
      invariant 1 <= i <= 15
      invariant unused + Unused(assoc0, i) == Unused(assoc0, 1)
    {
      assert Digit(i) in assoc <==> i in assoc0;
      UnusedStep(assoc0, i);
      if Digit(i) !in assoc {
        unused := unused + [i];
      }
      i := i + 1;
    }
    UnusedStep(assoc0, 15);
  }

  /** The associations of all pins but pin i. */
  method OtherAssociations(assoc: seq<ListWord>, i: nat) returns (assoclist: seq<ListWord>)
    requires i < |assoc|
    ensures assoclist == assoc[..i] + assoc[i + 1..]
  {
    assoclist := [];
    var j := 0;
    while j < |assoc|
      invariant 0 <= j <= |assoc|
      invariant assoclist == if j <= i then assoc[..j] else assoc[..i] + assoc[i + 1..j]
    {
      if j != i {
        assoclist := assoclist + [assoc[j]];
      }
      j := j + 1;
    }
  }

  method CorrectAssociations(verbc: seq<string>) returns (nverbc: seq<string>)
    requires AllVerbs(verbc)
    ensures nverbc == Corrected(verbc)
  {
    hide HexDigit, DigitValue, IsVerb, IsRepeat, NewAssoc, Repeats, Unused;
    ghost var assoc0 := Assocs(verbc);
    var assoc := ReadAssociations(verbc);
    var unused := FindUnused(assoc, assoc0);
    nverbc := [];
    var newassoclist: seq<ListWord> := [];
    var nextassoc := 0;
    var i := 0;
    assert Repeats(assoc0, 0) == 0 by { RepeatsStep(assoc0, 0); }
    while i < |verbc|
      invariant 0 <= i <= |verbc| && |assoc| == |verbc|
      invariant forall k :: i <= k < |verbc| ==> assoc[k] == Digit(assoc0[k])
      invariant newassoclist == assoc[..i]
      invariant forall k :: 0 <= k < i ==> assoc[k] == NewAssoc(assoc0, k)
      invariant nextassoc == Repeats(assoc0, i)
      invariant nverbc == Corrected(verbc)[..i]
    {
      assert IsVerb(verbc[i]);
      SeenIffRepeat(assoc0, i, newassoclist);
      RepeatsStep(assoc0, i);
      NewAssocBound(assoc0, i);
      NewVerbShape(verbc, i);
      var assoclist := OtherAssociations(assoc, i);
      if assoc[i] in assoclist && assoc[i] in newassoclist {
        var replacement := if nextassoc < |unused| then Digit(unused[nextassoc]) else Blank;
        assoc := assoc[i := replacement];
        nverbc := nverbc + [verbc[i][..6] + Shown(replacement) + "0"];
        nextassoc := nextassoc + 1;
      } else {
        nverbc := nverbc + [verbc[i][..7] + "0"];
      }
      newassoclist := newassoclist + [assoc[i]];
      i := i + 1;
    }
  }

  lemma RepeatsStep(assoc: seq<nat>, i: nat)
    requires i <= |assoc|
    ensures Repeats(assoc, 0) == 0
    ensures i < |assoc| ==> Repeats(assoc, i + 1) == Repeats(assoc, i) + if IsRepeat(assoc, i) then 1 else 0
    ensures i < |assoc| && !IsRepeat(assoc, i) ==> NewAssoc(assoc, i) == Digit(assoc[i])
    ensures i < |assoc| && IsRepeat(assoc, i) ==>
      var unused, k := Unused(assoc, 1), Repeats(assoc, i);
      NewAssoc(assoc, i) == if k < |unused| then Digit(unused[k]) else Blank
  {
  }

  lemma NewVerbShape(verbc: seq<string>, i: nat)
    requires AllVerbs(verbc) && i < |verbc|
    ensures |verbc[i]| == 8 && Assocs(verbc)[i] < 16 && Corrected(verbc)[i] == NewVerb(verbc, i)
  {
    assert Assocs(verbc)[i] == Assoc(verbc[i]);
  }

  // ---------------------------------------------------------------- unique associations

  /** Eight digits, sequence 0, and no two with the same association nibble. */
  ghost predicate UniqueAssociations(verbs: seq<string>) {
    && (forall i :: 0 <= i < |verbs| ==> IsVerb(verbs[i]) && verbs[i][7] == '0')
    && (forall i, j :: 0 <= i < j < |verbs| ==> verbs[i][6] != verbs[j][6])
  }

  lemma {:induction false} RepeatsGrow(assoc: seq<nat>, i: nat, j: nat)
    requires i < j <= |assoc| && IsRepeat(assoc, i)
    ensures Repeats(assoc, i) < Repeats(assoc, j)
  {
    if i + 1 < j {
      RepeatsGrow(assoc, i, j - 1);
    }
  }

  /** If there is a repeat too many, the one that finds no unused value exists. */
  lemma {:induction false} RepeatTooMany(assoc: seq<nat>, n: nat, limit: nat) returns (i: nat)
    requires n <= |assoc| && Repeats(assoc, n) > limit
    ensures i < n && IsRepeat(assoc, i) && Repeats(assoc, i) == limit
  {
    if Repeats(assoc, n - 1) > limit {
      i := RepeatTooMany(assoc, n - 1, limit);
    } else {
      i := n - 1;
    }
  }

  /** The association digit of the corrected verb i. */
  lemma NewNibble(verbc: seq<string>, i: nat)
    requires AllVerbs(verbc) && i < |verbc|
    requires Repeats(Assocs(verbc), |verbc|) <= |Unused(Assocs(verbc), 1)|
    ensures var assoc := Assocs(verbc);
            var v, unused := Corrected(verbc)[i], Unused(assoc, 1);
            && IsVerb(v) && v[..6] == verbc[i][..6] && v[7] == '0'
            && if IsRepeat(assoc, i)
               then Repeats(assoc, i) < |unused| && unused[Repeats(assoc, i)] in unused
                    && unused[Repeats(assoc, i)] < 16 && v[6] == HexDigit(unused[Repeats(assoc, i)])
               else v[6] == verbc[i][6]
  {
    hide HexDigit, DigitValue, IsDigit, Unused, Repeats, IsRepeat;
    var assoc := Assocs(verbc);
    var unused, k := Unused(assoc, 1), Repeats(assoc, i);
    NewVerbShape(verbc, i);
    RepeatsStep(assoc, i);
    UnusedValues(assoc, 1);
    DigitReadsBack(0);
    assert HexDigit(0) == '0' by { ZeroDigit(); }
    var v := NewVerb(verbc, i);
    if IsRepeat(assoc, i) {
      RepeatsGrow(assoc, i, |assoc|);
      assert unused[k] in unused;
      DigitReadsBack(unused[k]);
      assert v == verbc[i][..6] + [HexDigit(unused[k])] + "0";
    } else {
      assert v == verbc[i][..7] + "0";
    }
    assert forall c :: c in v ==> c == '0' || c in verbc[i] || v[6] == c;
  }

  lemma ZeroDigit()
    ensures HexDigit(0) == '0'
  {
  }

  lemma NotRepeatDiffers(assoc: seq<nat>, i: nat, j: nat)
    requires i < j < |assoc| && !IsRepeat(assoc, j)
    ensures assoc[i] != assoc[j]
  {
    assert assoc[..j][i] == assoc[i];
  }

  /** The number that the association digit of the corrected verb i stands for. */
  lemma NewNibbleValue(verbc: seq<string>, i: nat)
    requires AllVerbs(verbc) && i < |verbc|
    requires Repeats(Assocs(verbc), |verbc|) <= |Unused(Assocs(verbc), 1)|
    ensures var assoc := Assocs(verbc);
            var unused, k, after := Unused(assoc, 1), Repeats(assoc, i), Corrected(verbc)[i];
            && IsVerb(after) && assoc[i] in assoc
            && if IsRepeat(assoc, i)
               then k < |unused| && DigitValue(after[6]) == unused[k] && 1 <= unused[k] && unused[k] !in assoc
               else if verbc[i][6] == '0' then DigitValue(after[6]) == 0 && assoc[i] == 1
               else DigitValue(after[6]) == assoc[i]
  {
    hide HexDigit, IsDigit, Unused, Repeats, IsRepeat, Corrected;
    NewNibble(verbc, i);
    UnusedAt(Assocs(verbc), Repeats(Assocs(verbc), i));
    assert Assocs(verbc)[i] == Assoc(verbc[i]);
    if IsRepeat(Assocs(verbc), i) {
      DigitReadsBack(Unused(Assocs(verbc), 1)[Repeats(Assocs(verbc), i)]);
    }
  }

  /** Two pins never end up with the same nibble while there are enough unused values. */
  lemma NibblesDiffer(verbc: seq<string>, i: nat, j: nat)
    requires AllVerbs(verbc) && i < j < |verbc|
    requires Repeats(Assocs(verbc), |verbc|) <= |Unused(Assocs(verbc), 1)|
    ensures Corrected(verbc)[i][6] != Corrected(verbc)[j][6]
  {
    hide HexDigit, DigitValue, IsDigit, Unused, Repeats, IsRepeat, Corrected;
    var assoc := Assocs(verbc);
    NewNibbleValue(verbc, i);
    NewNibbleValue(verbc, j);
    UnusedValues(assoc, 1);
    if IsRepeat(assoc, i) {
      RepeatsGrow(assoc, i, j);
    }
    if !IsRepeat(assoc, j) {
      NotRepeatDiffers(assoc, i, j);
    }
    assert DigitValue(Corrected(verbc)[i][6]) != DigitValue(Corrected(verbc)[j][6]);
  }

  /** A repeat that finds no unused value leaves a verb of seven digits. */
  lemma ExhaustedIsShort(verbc: seq<string>, i: nat)
    requires AllVerbs(verbc) && i < |verbc|
    requires IsRepeat(Assocs(verbc), i) && Repeats(Assocs(verbc), i) == |Unused(Assocs(verbc), 1)|
    ensures |Corrected(verbc)[i]| == 7
  {
    hide Unused, Repeats, IsRepeat;
    NewVerbShape(verbc, i);
    RepeatsStep(Assocs(verbc), i);
  }

  /** Beyond the capacity some corrected verb is too short. */
  lemma BeyondCapacityIsMalformed(verbc: seq<string>)
    requires AllVerbs(verbc)
    requires Repeats(Assocs(verbc), |verbc|) > |Unused(Assocs(verbc), 1)|
    ensures !AllVerbs(Corrected(verbc))
    ensures exists i :: 0 <= i < |verbc| && |Corrected(verbc)[i]| == 7
  {
    hide Unused, Repeats, IsRepeat, Corrected;
    var i := RepeatTooMany(Assocs(verbc), |verbc|, |Unused(Assocs(verbc), 1)|);
    ExhaustedIsShort(verbc, i);
    assert !IsVerb(Corrected(verbc)[i]);
  }

  lemma UniqueIffEnoughUnused(verbc: seq<string>)
    requires AllVerbs(verbc)
    ensures UniqueAssociations(Corrected(verbc)) <==>
            Repeats(Assocs(verbc), |verbc|) <= |Unused(Assocs(verbc), 1)|
  {
    hide Unused, Repeats, IsRepeat, Corrected;
    var repeats, limit := Repeats(Assocs(verbc), |verbc|), |Unused(Assocs(verbc), 1)|;
    if repeats <= limit {
      forall i | 0 <= i < |verbc| ensures IsVerb(Corrected(verbc)[i]) && Corrected(verbc)[i][7] == '0' {
        NewNibble(verbc, i);
      }
      forall i, j | 0 <= i < j < |verbc| ensures Corrected(verbc)[i][6] != Corrected(verbc)[j][6] {
        NibblesDiffer(verbc, i, j);
      }
    } else {
      BeyondCapacityIsMalformed(verbc);
    }
  }

  // ---------------------------------------------------------------- the capacity of the allocator

  ghost function Values(assoc: seq<nat>): set<nat> {
    set a | a in assoc
  }

  /** Repeats are the pins in excess of the different values. */
  lemma {:induction false} RepeatsAreExcess(assoc: seq<nat>, n: nat)
    requires n <= |assoc|
    ensures Repeats(assoc, n) + |Values(assoc[..n])| == n
  {
    if n == 0 {
      assert Values(assoc[..0]) == {};
    } else {
      RepeatsAreExcess(assoc, n - 1);
      var front, a := assoc[..n - 1], assoc[n - 1];
      assert assoc[..n] == front + [a];
      assert Values(assoc[..n]) == Values(front) + {a};
      assert a in Values(front) <==> IsRepeat(assoc, n - 1);
      if a in Values(front) {
        assert Values(front) + {a} == Values(front);
      }
    }
  }

  ghost function ValuesFrom(assoc: seq<nat>, i: nat): set<nat> {
    set a | a in assoc && i <= a < 15
  }

  lemma {:induction false} UnusedIsComplement(assoc: seq<nat>, i: nat)
    requires i <= 15
    ensures |Unused(assoc, i)| + |ValuesFrom(assoc, i)| == 15 - i
    decreases 15 - i
  {
    if i == 15 {
      assert ValuesFrom(assoc, i) == {};
    } else {
      UnusedIsComplement(assoc, i + 1);
      UnusedStep(assoc, i);
      assert ValuesFrom(assoc, i) == ValuesFrom(assoc, i + 1) + if i in assoc then {i} else {};
    }
  }

  /** 14 values can be handed out; value f counts only if it is already there. */
  lemma EnoughUnusedIff(assoc: seq<nat>)
    requires forall i :: 0 <= i < |assoc| ==> 1 <= assoc[i] < 16
    ensures Repeats(assoc, |assoc|) <= |Unused(assoc, 1)| <==>
            |assoc| <= if 15 in assoc then 15 else 14
  {
    hide Unused, Repeats;
    RepeatsAreExcess(assoc, |assoc|);
    assert assoc[..|assoc|] == assoc;
    UnusedIsComplement(assoc, 1);
    forall a | a in assoc ensures 1 <= a < 16 {
      var i :| 0 <= i < |assoc| && assoc[i] == a;
    }
    var all, low := Values(assoc), ValuesFrom(assoc, 1);
    assert all == low + if 15 in assoc then {15} else {};
  }

  /** The corrected 71c verbs are well formed with pairwise different association nibbles and
      sequence 0 if and only if there are at most 14 pins, or 15 pins one of which has nibble f. */
  lemma AssociationsUniqueIff(verbc: seq<string>)
    requires AllVerbs(verbc)
    ensures UniqueAssociations(Corrected(verbc)) <==>
            |verbc| <= 14 || (|verbc| == 15 && exists i :: 0 <= i < |verbc| && verbc[i][6] == 'f')
  {
    hide Unused, Repeats, IsRepeat, Corrected, UniqueAssociations;
    var assoc := Assocs(verbc);
    UniqueIffEnoughUnused(verbc);
    EnoughUnusedIff(assoc);
    forall i | 0 <= i < |verbc| ensures verbc[i][6] == 'f' <==> assoc[i] == 15 {
      NibbleF(verbc[i]);
    }
  }

  lemma NibbleF(verb: string)
    requires IsVerb(verb)
    ensures verb[6] == 'f' <==> Assoc(verb) == 15
  {
    ValueReadsBack(verb[6]);
  }

  /** Whatever the number of pins, a first occurrence keeps all but the sequence digit, and a
      repeat keeps address, node and command. */
  lemma FirstOccurrencesAreKept(verbc: seq<string>, i: nat)
    requires AllVerbs(verbc) && i < |verbc|
    ensures !IsRepeat(Assocs(verbc), i) ==> Corrected(verbc)[i] == verbc[i][..7] + "0"
    ensures |Corrected(verbc)[i]| >= 7 && Corrected(verbc)[i][..6] == verbc[i][..6]
  {
    hide Unused, Repeats, IsRepeat;
    NewVerbShape(verbc, i);
  }

  // ---------------------------------------------------------------- correcting twice

  /** Verbs with different nibbles, of which not both 0 and 1 occur, are left alone. */
  lemma NoRepeatsNoChange(verbc: seq<string>)
    requires UniqueAssociations(verbc)
    requires forall i, j :: 0 <= i < |verbc| && 0 <= j < |verbc| ==> !(verbc[i][6] == '0' && verbc[j][6] == '1')
    ensures Corrected(verbc) == verbc
  {
    hide Unused, Repeats, HexDigit, IsDigit;
    var assoc := Assocs(verbc);
    forall i | 0 <= i < |verbc| ensures Corrected(verbc)[i] == verbc[i] {
      NewVerbShape(verbc, i);
      ValueReadsBack(verbc[i][6]);
      OneDigit();
      forall k | 0 <= k < i ensures assoc[k] != assoc[i] {
        ValueReadsBack(verbc[k][6]);
      }
      assert !IsRepeat(assoc, i);
      assert verbc[i] == verbc[i][..7] + "0";
    }
  }

  lemma OneDigit()
    ensures HexDigit(1) == '1'
  {
  }

  /** The pass never leaves both a nibble 0 and a nibble 1. */
  lemma NotBothZeroAndOne(verbc: seq<string>, i: nat, j: nat)
    requires AllVerbs(verbc) && i < |verbc| && j < |verbc|
    requires Repeats(Assocs(verbc), |verbc|) <= |Unused(Assocs(verbc), 1)|
    ensures !(Corrected(verbc)[i][6] == '0' && Corrected(verbc)[j][6] == '1')
  {
    hide HexDigit, IsDigit, Unused, Repeats, IsRepeat, Corrected;
    var assoc := Assocs(verbc);
    NewNibbleValue(verbc, i);
    NewNibbleValue(verbc, j);
    if i < j && !IsRepeat(assoc, j) {
      NotRepeatDiffers(assoc, i, j);
    }
    if j < i && !IsRepeat(assoc, i) {
      NotRepeatDiffers(assoc, j, i);
    }
  }

  /** There are at most 14 pins, or 15 one of which has nibble f. */
  ghost predicate InCapacity(verbc: seq<string>)
    requires AllVerbs(verbc)
  {
    |verbc| <= 14 || (|verbc| == 15 && exists i :: 0 <= i < |verbc| && verbc[i][6] == 'f')
  }

  /** All emitted verbs have eight digits exactly within the capacity. */
  lemma EightDigitsIff(verbc: seq<string>)
    requires AllVerbs(verbc)
    ensures (forall i :: 0 <= i < |verbc| ==> |Corrected(verbc)[i]| == 8) <==> InCapacity(verbc)
  {
    hide Unused, Repeats, IsRepeat, Corrected;
    AssociationsUniqueIff(verbc);
    UniqueIffEnoughUnused(verbc);
    if !UniqueAssociations(Corrected(verbc)) {
      BeyondCapacityIsMalformed(verbc);
    }
  }

  /** The corrected verbs are verbs again, and correcting them changes nothing, exactly within the
      capacity. */
  lemma CorrectingTwice71cIff(verbc: seq<string>)
    requires AllVerbs(verbc)
    ensures AllVerbs(Corrected(verbc)) && Corrected(Corrected(verbc)) == Corrected(verbc) <==>
            |verbc| <= 14 || (|verbc| == 15 && exists i :: 0 <= i < |verbc| && verbc[i][6] == 'f')
  {
    hide Unused, Repeats, IsRepeat, Corrected;
    AssociationsUniqueIff(verbc);
    UniqueIffEnoughUnused(verbc);
    if UniqueAssociations(Corrected(verbc)) {
      forall i, j | 0 <= i < |verbc| && 0 <= j < |verbc|
        ensures !(Corrected(verbc)[i][6] == '0' && Corrected(verbc)[j][6] == '1')
      {
        NotBothZeroAndOne(verbc, i, j);
      }
      NoRepeatsNoChange(Corrected(verbc));
    } else {
      BeyondCapacityIsMalformed(verbc);
    }
  }

  /** Fifteen pins that all have association 1. */
  const FIFTEEN: seq<string> := ["01271c10", "01371c10", "01471c10", "01571c10", "01671c10",
                                 "01771c10", "01871c10", "01971c10", "01a71c10", "01b71c10",
                                 "01c71c10", "01d71c10", "01e71c10", "01f71c10", "02071c10"]

  lemma FifteenAreVerbs()
    ensures |FIFTEEN| == 15 && AllVerbs(FIFTEEN) && forall i :: 0 <= i < 15 ==> FIFTEEN[i][6] == '1'
  {
    hide IsDigit;
    assert forall c :: c in "0123456789abcdef" ==> IsDigit(c) by { DigitsAreDigits(); }
    forall i | 0 <= i < 15 ensures IsVerb(FIFTEEN[i]) && FIFTEEN[i][6] == '1' {
      forall c | c in FIFTEEN[i] ensures IsDigit(c) {
        assert c in "0123456789abcdef";
      }
    }
  }

  lemma DigitsAreDigits()
    ensures forall c :: c in "0123456789abcdef" ==> IsDigit(c)
  {
  }

  /** An input beyond the capacity: the fifteenth verb is emitted with seven digits. */
  lemma FifteenPinsAreTooMany()
    ensures AllVerbs(FIFTEEN) && |Corrected(FIFTEEN)[14]| == 7 && !UniqueAssociations(Corrected(FIFTEEN))
  {
    FifteenAreVerbs();
    OneValueExhausts(FIFTEEN);
  }

  lemma OneValueExhausts(verbc: seq<string>)
    requires |verbc| == 15 && AllVerbs(verbc) && forall i :: 0 <= i < 15 ==> verbc[i][6] == '1'
    ensures |Corrected(verbc)[14]| == 7 && !UniqueAssociations(Corrected(verbc))
  {
    hide Unused, Repeats, Corrected;
    var assoc := Assocs(verbc);
    OneDigit();
    forall i | 0 <= i < 15 ensures assoc[i] == 1 {
      ValueReadsBack(verbc[i][6]);
      DigitReadsBack(1);
    }
    RepeatsAreExcess(assoc, 14);
    assert assoc[..14][0] == 1;
    assert Values(assoc[..14]) == {1};
    UnusedIsComplement(assoc, 1);
    assert assoc[0] == 1;
    assert ValuesFrom(assoc, 1) == {1};
    assert assoc[..14][0] == assoc[14];
    ExhaustedIsShort(verbc, 14);
  }

  // ---------------------------------------------------------------- 71d and 71f

  /** The 71d pass: all but the last digit stay, the last becomes 0. */
  ghost predicate MiscCleared(before: seq<string>, after: seq<string>) {
    && |after| == |before| && AllVerbs(before) && AllVerbs(after)
    && forall i :: 0 <= i < |before| ==> after[i][..7] == before[i][..7] && after[i][7] == '0'
  }

  /** The 71f pass: all but the last digit stay; 1 and 2 become 1, every other location 0. */
  ghost predicate LocationCorrected(before: seq<string>, after: seq<string>) {
    && |after| == |before| && AllVerbs(before) && AllVerbs(after)
    && forall i :: 0 <= i < |before| ==>
         (&& after[i][..7] == before[i][..7]
          && (after[i][7] == '1' || after[i][7] == '0')
          && (after[i][7] == '1' <==> before[i][7] == '1' || before[i][7] == '2'))
  }

  method CorrectMisc(verbd: seq<string>) returns (nverbd: seq<string>)
    requires AllVerbs(verbd)
    ensures MiscCleared(verbd, nverbd)
  {
    nverbd := [];
    var i := 0;
    while i < |verbd|
      invariant 0 <= i <= |verbd| && MiscCleared(verbd[..i], nverbd)
    {
      assert IsVerb(verbd[i]);
      var v := verbd[i][..7] + "0";
      assert v[..7] == verbd[i][..7];
      assert forall c :: c in v ==> c == '0' || c in verbd[i];
      nverbd := nverbd + [v];
      i := i + 1;
    }
    assert verbd[..|verbd|] == verbd;
  }

  method CorrectLocation(verbf: seq<string>) returns (nverbf: seq<string>)
    requires AllVerbs(verbf)
    ensures LocationCorrected(verbf, nverbf)
  {
    nverbf := [];
    var i := 0;
    while i < |verbf|
      invariant 0 <= i <= |verbf| && LocationCorrected(verbf[..i], nverbf)
    {
      assert IsVerb(verbf[i]);
      var verb, misc := verbf[i][..7], verbf[i][7];
      if misc == '2' {
        misc := '1';
      }
      if misc != '1' {
        misc := '0';
      }
      var v := verb + [misc];
      assert v[..7] == verb;
      assert forall c :: c in v ==> c == misc || c in verbf[i];
      nverbf := nverbf + [v];
      i := i + 1;
    }
    assert verbf[..|verbf|] == verbf;
  }

  /** The 71f pass changes nothing but location 2 if and only if there are no locations but 0, 1 and 2. */
  lemma OnlyTwoIsChangedIff(before: seq<string>, after: seq<string>)
    requires LocationCorrected(before, after)
    ensures (forall i :: 0 <= i < |before| && before[i][7] != '2' ==> after[i] == before[i]) <==>
            (forall i :: 0 <= i < |before| ==> before[i][7] == '0' || before[i][7] == '1' || before[i][7] == '2')
  {
    forall i | 0 <= i < |before| && before[i][7] != '2'
      ensures after[i] == before[i] <==> before[i][7] == '0' || before[i][7] == '1'
    {
      assert before[i] == before[i][..7] + [before[i][7]];
      assert after[i] == after[i][..7] + [after[i][7]];
    }
  }

  /** An input: location 3 becomes 0. */
  lemma LocationThreeIsChanged(after: seq<string>)
    requires LocationCorrected(["01271f03"], after)
    ensures AllVerbs(["01271f03"]) && after == ["01271f00"]
  {
    var before := ["01271f03"];
    var v := before[0];
    assert v[..7] == "01271f0" && v[7] == '3';
    assert after[0][..7] == v[..7] && after[0][7] == '0';
    assert after[0] == after[0][..7] + [after[0][7]];
    assert "01271f00" == "01271f0" + ['0'];
    assert after == [after[0]];
  }

  /** A second pass over 71d or 71f changes nothing. */
  lemma CorrectingTwice71d71f(d: seq<string>, d': seq<string>, d'': seq<string>,
                              f: seq<string>, f': seq<string>, f'': seq<string>)
    requires MiscCleared(d, d') && MiscCleared(d', d'')
    requires LocationCorrected(f, f') && LocationCorrected(f', f'')
    ensures d'' == d' && f'' == f'
  {
    forall i | 0 <= i < |d'| ensures d''[i] == d'[i] {
      assert d''[i] == d''[i][..7] + [d''[i][7]];
      assert d'[i] == d'[i][..7] + [d'[i][7]];
    }
    forall i | 0 <= i < |f'| ensures f''[i] == f'[i] {
      assert f''[i] == f''[i][..7] + [f''[i][7]];
      assert f'[i] == f'[i][..7] + [f'[i][7]];
    }
  }
}
