// Reading identities back from text (include/replicafabric/core/identity.hpp:30-60, 102-135).
module IdentityText {
  import opened Base
  import opened Identity

  const HYPHEN: U8 := 45

  // hex_digit: '0'-'9', 'a'-'f' and 'A'-'F'.
  function DigitOf(c: U8): Option<nat> {
    if 48 <= c <= 57 then Some(c - 48)
    else if 97 <= c <= 102 then Some(c - 87)
    else if 65 <= c <= 70 then Some(c - 55)
    else None
  }

  predicate AllDigits(s: Text) {
    forall i :: 0 <= i < |s| ==> DigitOf(s[i]).Some?
  }

  function HexValue(s: Text): nat
    requires AllDigits(s)
  {
    if s == [] then 0 else HexValue(s[..|s| - 1]) * 16 + DigitOf(s[|s| - 1]).value
  }

  lemma {:induction false} HexValueBound(s: Text)
    requires AllDigits(s)
    ensures HexValue(s) < Pow16(|s|)
  {
    if s != [] { HexValueBound(s[..|s| - 1]); }
  }

  // Exactly 16 digits.
  function HexParsed(s: Text): (v: Option<nat>)
    ensures v.Some? ==> v.value < U64_MOD
  {
    if |s| != 16 || !AllDigits(s) then None else
      HexValueBound(s); Pow16Of16();
      Some(HexValue(s))
  }

  // Id::try_parse
  function TryParse(s: Text): Option<Id> {
    if |s| != 32 then None else
      var (hi, lo) := (HexParsed(s[..16]), HexParsed(s[16..]));
      if hi.None? || lo.None? then None else Some(Id(hi.value, lo.value))
  }

  function WithoutHyphens(s: Text): Text {
    if s == [] then []
    else WithoutHyphens(s[..|s| - 1]) + if s[|s| - 1] == HYPHEN then [] else [s[|s| - 1]]
  }

  // The lower-case form of a text.
  function LowerChar(c: U8): U8 {
    if 65 <= c <= 90 then c + 32 else c
  }

  function Lower(s: Text): (t: Text)
    ensures |t| == |s| && forall i :: 0 <= i < |s| ==> t[i] == LowerChar(s[i])
  {
    MapSeq(LowerChar, s)
  }

  method ParseHex(s: Text) returns (v: Option<nat>)
    ensures v == HexParsed(s)
  {
    if |s| != 16 { return None; }
    var n := 0;
    for i := 0 to |s|
      invariant AllDigits(s[..i]) && n == HexValue(s[..i])
    {
      assert s[..i + 1][..i] == s[..i];
      var d := DigitOf(s[i]);
      if d.None? { return None; }
      n := n * 16 + d.value;
    }
    assert s[..|s|] == s;
    v := Some(n);
  }

  // Id::from_string, which skips hyphens wherever they stand.
  method FromString(s: Text) returns (id: Option<Id>)
    ensures id == TryParse(WithoutHyphens(s))
  {
    var cleaned := [];
    for i := 0 to |s|
      invariant cleaned == WithoutHyphens(s[..i]) && AllDigits(cleaned)
    {
      assert s[..i + 1][..i] == s[..i];
      if s[i] != HYPHEN {
        if DigitOf(s[i]).None? {
          BadCharacter(s, i);
          return None;
        }
        cleaned := cleaned + [s[i]];
      }
    }
    assert s[..|s|] == s;
    if |cleaned| != 32 { return None; }
    var hi := ParseHex(cleaned[..16]);
    var lo := ParseHex(cleaned[16..]);
    if hi.None? || lo.None? { return None; }
    id := Some(Id(hi.value, lo.value));
  }

  lemma {:induction false} Kept(s: Text, i: nat)
    requires i < |s| && s[i] != HYPHEN
    ensures s[i] in WithoutHyphens(s)
  {
    if i < |s| - 1 { Kept(s[..|s| - 1], i); }
  }

  lemma BadCharacter(s: Text, i: nat)
    requires i < |s| && s[i] != HYPHEN && DigitOf(s[i]).None?
    ensures TryParse(WithoutHyphens(s)).None?
  {
    Kept(s, i);
    var t := WithoutHyphens(s);
    var j :| 0 <= j < |t| && t[j] == s[i];
    if |t| == 32 {
      if j < 16 { assert t[..16][j] == s[i]; } else { assert t[16..][j - 16] == s[i]; }
    }
  }

  // ----- Which texts denote which identity -----

  lemma DigitInverse(c: U8, d: nat)
    requires d < 16
    ensures DigitOf(c) == Some(d) <==> LowerChar(c) == HexDigit(d)
  {
  }

  lemma {:induction false} HexInverse(s: Text, v: nat)
    requires v < Pow16(|s|)
    ensures AllDigits(s) && HexValue(s) == v <==> Lower(s) == Hex(v, |s|)
  {
    if s != [] {
      var n := |s| - 1;
      var (front, last) := (s[..n], s[n]);
      HexInverse(front, v / 16);
      DigitInverse(last, v % 16);
      assert s == front + [last];
      assert Lower(s) == Lower(front) + [LowerChar(last)];
      assert AllDigits(s) <==> AllDigits(front) && DigitOf(last).Some?;
      assert Hex(v, n + 1)[..n] == Hex(v / 16, n) && Hex(v, n + 1)[n] == HexDigit(v % 16);
      assert Lower(s)[..n] == Lower(front) && Lower(s)[n] == LowerChar(last);
    }
  }

  // A text parses to an identity if and only if its lower-case form is that identity's string.
  lemma ParsesIffLowerCaseMatches(s: Text, id: Id)
    ensures TryParse(s) == Some(id) <==> Lower(s) == IdText(id)
  {
    Pow16Of16();
    if |s| == 32 {
      var (a, b) := (s[..16], s[16..]);
      HexInverse(a, id.hi);
      HexInverse(b, id.lo);
      assert Lower(s) == Lower(a) + Lower(b);
      assert Lower(s)[..16] == Lower(a) && Lower(s)[16..] == Lower(b);
      assert IdText(id)[..16] == Hex(id.hi, 16) && IdText(id)[16..] == Hex(id.lo, 16);
    }
  }

  lemma {:induction false} IdTextIsLower(v: nat, n: nat)
    ensures Lower(Hex(v, n)) == Hex(v, n)
  {
    if n > 0 {
      IdTextIsLower(v / 16, n - 1);
      assert Hex(v, n)[..n - 1] == Hex(v / 16, n - 1);
      assert forall i :: 0 <= i < n - 1 ==> LowerChar(Hex(v, n)[i]) == Lower(Hex(v / 16, n - 1))[i];
    }
  }

  // Writing and reading back is the identity. Reading and writing back is so exactly for texts
  // without upper-case letters, although the parser is documented as accepting only canonical text.
  lemma TextRoundTrip(id: Id, s: Text)
    ensures TryParse(IdText(id)) == Some(id)
    ensures TryParse(s).Some? ==> (IdText(TryParse(s).value) == s <==> Lower(s) == s)
  {
    IdTextIsLower(id.hi, 16);
    IdTextIsLower(id.lo, 16);
    assert Lower(IdText(id)) == Lower(Hex(id.hi, 16)) + Lower(Hex(id.lo, 16));
    ParsesIffLowerCaseMatches(IdText(id), id);
    if TryParse(s).Some? { ParsesIffLowerCaseMatches(s, TryParse(s).value); }
  }

  // ----- The digits themselves -----

  // "0123456789abcdef"
  const DIGITS: Text := [48, 49, 50, 51, 52, 53, 54, 55, 56, 57, 97, 98, 99, 100, 101, 102]

  lemma {:induction false} HexDigits(v: nat, n: nat, i: nat)
    requires i < n
    ensures Hex(v, n)[i] == DIGITS[v / Pow16(n - 1 - i) % 16]
  {
    if i < n - 1 {
      HexDigits(v / 16, n - 1, i);
      DivideTwice(v, 16, Pow16(n - 2 - i));
    }
  }

  // The sixteen digits of the high half, then those of the low half, most significant first.
  lemma IdentityInText(id: Id, i: nat)
    requires i < 32
    ensures IdText(id)[i] == DIGITS[(if i < 16 then id.hi / Pow16(15 - i) else id.lo / Pow16(31 - i)) % 16]
  {
    if i < 16 { HexDigits(id.hi, 16, i); } else { HexDigits(id.lo, 16, i - 16); }
  }
}
