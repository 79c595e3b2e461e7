/** The characters that hda-tools/convert.sh takes for digits and that it prints: what each is worth, and
    that upper and lower case do not matter. */
module VerbDigits {
  import opened ConvertVerbs

  /** A digit has the value of its place among the digits of its kind, and nothing else is a digit. */
  lemma DigitValues(c: char)
    ensures '0' <= c <= '9' ==> Nibble(c) as int == c as int - '0' as int
    ensures 'a' <= c <= 'f' ==> Nibble(c) as int == c as int - 'a' as int + 10
    ensures 'A' <= c <= 'F' ==> Nibble(c) as int == c as int - 'A' as int + 10
    ensures IsHex(c) <==> c in "0123456789abcdefABCDEF"
  {
    hide Nibble, IsHex;
    HexCharacters(c);
    if '0' <= c <= '9' {
      DecimalDigit(c);
    } else if 'a' <= c <= 'f' {
      LowerCaseDigit(c);
    } else if 'A' <= c <= 'F' {
      UpperCaseDigit(c);
    }
  }

  lemma HexCharacters(c: char)
    ensures IsHex(c) <==> c in "0123456789abcdefABCDEF"
  {
    var all := "0123456789abcdefABCDEF";
    if '0' <= c <= '9' {
      assert all[c as int - '0' as int] == c;
    } else if 'a' <= c <= 'f' {
      assert all[c as int - 'a' as int + 10] == c;
    } else if 'A' <= c <= 'F' {
      assert all[c as int - 'A' as int + 16] == c;
    }
  }

  lemma DecimalDigit(c: char)
    requires '0' <= c <= '9'
    ensures Nibble(c) as int == c as int - '0' as int
  {
  }

  lemma LowerCaseDigit(c: char)
    requires 'a' <= c <= 'f'
    ensures Nibble(c) as int == c as int - 'a' as int + 10
  {
  }

  lemma UpperCaseDigit(c: char)
    requires 'A' <= c <= 'F'
    ensures Nibble(c) as int == c as int - 'A' as int + 10
  {
  }

  /** What is printed is lower case. */
  lemma DigitsPrinted(d: Word)
    requires d < 16
    ensures Digit(d) as int == if d < 10 then '0' as int + d as int else 'a' as int + d as int - 10
  {
  }

  function LowerChar(c: char): (r: char)
    ensures !('A' <= r <= 'Z') && (!('A' <= c <= 'Z') ==> r == c)
  {
    if 'A' <= c <= 'Z' then c - 'A' + 'a' else c
  }

  function Lower(s: string): (r: string)
    ensures |r| == |s| && forall i :: 0 <= i < |s| ==> r[i] == LowerChar(s[i])
  {
    seq(|s|, i requires 0 <= i < |s| => LowerChar(s[i]))
  }

  lemma LowerDigit(c: char)
    ensures IsHex(LowerChar(c)) <==> IsHex(c)
    ensures Nibble(LowerChar(c)) == Nibble(c)
  {
    if 'A' <= c <= 'F' {
      LowerLetter(c);
    } else if 'G' <= c <= 'Z' {
      NoDigits(c);
    }
    hide Nibble, IsHex;
  }

  lemma LowerLetter(c: char)
    requires 'A' <= c <= 'F'
    ensures 'a' <= c - 'A' + 'a' <= 'f' && Nibble(c - 'A' + 'a') == Nibble(c)
  {
  }

  lemma NoDigits(c: char)
    requires 'G' <= c <= 'Z'
    ensures !IsHex(c) && !IsHex(c - 'A' + 'a') && Nibble(c) == 0 == Nibble(c - 'A' + 'a')
  {
  }

  lemma LowerWord(s: string)
    requires |s| == 8
    ensures WordOf(Lower(s)) == WordOf(s)
  {
    hide Nibble, LowerChar;
    var low := Lower(s);
    forall i | 0 <= i < 8 ensures Nibble(low[i]) == Nibble(s[i]) {
      LowerDigit(s[i]);
    }
  }

  lemma {:induction false} LowerHexOnly(s: string)
    ensures HexOnly(Lower(s)) == Lower(HexOnly(s))
  {
    hide IsHex, LowerChar;
    if s != "" {
      var front, last := s[..|s| - 1], s[|s| - 1];
      LowerHexOnly(front);
      LowerDigit(last);
      assert Lower(s)[..|s| - 1] == Lower(front);
      assert Lower(HexOnly(front) + [last]) == Lower(HexOnly(front)) + [LowerChar(last)];
      assert HexOnly(front) + "" == HexOnly(front);
    }
  }

  lemma LowerChunks(digits: string)
    ensures Chunks(Lower(digits)) == Chunks(digits)
  {
    hide WordOf, LowerChar;
    forall i | 0 <= i < |digits| / 8
      ensures WordOf(Lower(digits)[8 * i..8 * i + 8]) == WordOf(digits[8 * i..8 * i + 8])
    {
      assert Lower(digits)[8 * i..8 * i + 8] == Lower(digits[8 * i..8 * i + 8]);
      LowerWord(digits[8 * i..8 * i + 8]);
    }
  }

  /** A text and the same text in lower case leave the same arrays. */
  lemma CaseDoesNotMatter(input: string)
    ensures Verbs(Lower(input)) == Verbs(input) && Decode(Lower(input)) == Decode(input)
  {
    hide HexOnly, Chunks, Lower;
    LowerHexOnly(input);
    LowerChunks(HexOnly(input));
  }

  /** Two inputs in upper case: bytes 0x20 and 0x90 for the nodes 0x1b and 0x1a. */
  lemma UpperCaseVerbs()
    ensures Verbs("01B71C20 01A71C90") == [Verb(0x01b71c20), Verb(0x01a71c90)]
    ensures NodeOf(0x01b71c20) == Node(0x1b) && Payload(0x01b71c20) == 0x20 && IsPin(0x01b71c20)
    ensures NodeOf(0x01a71c90) == Node(0x1a) && Payload(0x01a71c90) == 0x90 && IsPin(0x01a71c90)
  {
    assert Verbs("01B71C20 01A71C90") == [Verb(0x01b71c20), Verb(0x01a71c90)] by {
      hide WordOf, Chunks, HexOnly, IsHex;
      TwoWords("01B71C20", "01A71C90");
      assert "01B71C20" + " " + "01A71C90" == "01B71C20 01A71C90";
      WordsOfInput();
    }
  }

  lemma TwoWords(a: string, b: string)
    requires |a| == 8 && |b| == 8 && forall c :: c in a + b ==> c in "0123456789abcdefABCDEF"
    ensures Verbs(a + " " + b) == [Verb(WordOf(a)), Verb(WordOf(b))]
  {
    hide WordOf, HexOnly, Chunks, IsHex;
    forall c ensures IsHex(c) <==> c in "0123456789abcdefABCDEF" {
      HexCharacters(c);
    }
    assert forall c :: c in a || c in b ==> c in a + b;
    HexOnlyAll(a);
    HexOnlyAll(b);
    HexOnlyNone(" ");
    HexOnlyConcat(a + " ", b);
    HexOnlyConcat(a, " ");
    assert a + "" == a && "" + a == a;
    NothingPending();
    ChunksAppend("", a);
    ChunksAppend(a, b);
  }

  lemma WordsOfInput()
    ensures WordOf("01B71C20") == 0x01b71c20 && WordOf("01A71C90") == 0x01a71c90
  {
  }
}
