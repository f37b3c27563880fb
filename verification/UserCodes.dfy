/** The user code of a device grant, as it is looked up.

A code is compared after dropping white space and hyphens and folding ASCII letters to upper case.
Here text is a sequence of Unicode scalar values. */
module UserCodes {
  predicate IsWhitespace(c: char) {
    || '\U{9}' <= c <= '\U{D}' || c == ' ' || c == '\U{85}' || c == '\U{A0}' || c == '\U{1680}'
    || '\U{2000}' <= c <= '\U{200A}' || c == '\U{2028}' || c == '\U{2029}' || c == '\U{202F}'
    || c == '\U{205F}' || c == '\U{3000}'
  }

  function ToAsciiUppercase(c: char): (u: char) {
    if 'a' <= c <= 'z' then c - 'a' + 'A' else c
  }

  predicate Kept(c: char) { !IsWhitespace(c) && c != '-' }

  function Normalize(entered: string): (code: string) {
    if entered == "" then ""
    else if Kept(entered[0]) then [ToAsciiUppercase(entered[0])] + Normalize(entered[1..])
    else Normalize(entered[1..])
  }

  /** A code in normal form has nothing left to drop or to fold. */
  predicate IsNormal(code: string) {
    forall i | 0 <= i < |code| :: Kept(code[i]) && !('a' <= code[i] <= 'z')
  }

  lemma {:induction false} NormalizeIsNormal(entered: string)
    ensures IsNormal(Normalize(entered))
  {
    if entered != "" { NormalizeIsNormal(entered[1..]); }
  }

  lemma {:induction false} NormalFixed(code: string)
    requires IsNormal(code)
    ensures Normalize(code) == code
  {
    if code != "" { NormalFixed(code[1..]); }
  }

  lemma {:induction false} NormalizeConcat(a: string, b: string)
    ensures Normalize(a + b) == Normalize(a) + Normalize(b)
  {
    if a == "" {
      assert a + b == b;
    } else {
      assert (a + b)[1..] == a[1..] + b;
      NormalizeConcat(a[1..], b);
    }
  }

  /** Normalizing twice is normalizing once, and hyphens or spaces typed between the parts of a code
  make no difference: what a person may type for one code is one entry. */
  lemma NormalizeStable(a: string, b: string)
    ensures Normalize(Normalize(a)) == Normalize(a)
    ensures Normalize(a + "-" + b) == Normalize(a + b) && Normalize(a + " " + b) == Normalize(a + b)
  {
    NormalizeIsNormal(a);
    NormalFixed(Normalize(a));
    NormalizeConcat(a, b);
    NormalizeConcat(a + "-", b);
    NormalizeConcat(a, "-");
    NormalizeConcat(a + " ", b);
    NormalizeConcat(a, " ");
    assert "-"[1..] == "" && " "[1..] == "";
  }

  // ----- what one entry stands for

  /** White space, by code point, and the hyphen. */
  predicate Separator(c: char) {
    || c as int in {0x09, 0x0A, 0x0B, 0x0C, 0x0D, 0x20, 0x2D, 0x85, 0xA0, 0x1680}
    || c as int in {0x2028, 0x2029, 0x202F, 0x205F, 0x3000} || 0x2000 <= c as int <= 0x200A
  }

  /** What a person typed, without the separators. */
  function Dropped(entered: string): (typed: string) {
    if entered == "" then ""
    else if Separator(entered[0]) then Dropped(entered[1..])
    else [entered[0]] + Dropped(entered[1..])
  }

  /** One character, or the two cases of one of the letters A to Z. */
  predicate SameLetter(a: char, b: char) {
    || a == b
    || ('A' <= a <= 'Z' && b as int == a as int + 32)
    || ('A' <= b <= 'Z' && a as int == b as int + 32)
  }

  /** Two entries that differ in separators and in the case of letters at most. */
  ghost predicate SameEntry(a: string, b: string) {
    |Dropped(a)| == |Dropped(b)| && forall i | 0 <= i < |Dropped(a)| :: SameLetter(Dropped(a)[i], Dropped(b)[i])
  }

  /** What each single character becomes: a separator nothing, a lower-case letter its upper case, and every
  other character itself. */
  lemma NormalizeChar(c: char)
    ensures Separator(c) ==> Normalize([c]) == ""
    ensures 'A' <= c <= 'Z' ==> Normalize([c - 'A' + 'a']) == [c]
    ensures !Separator(c) && !('a' <= c <= 'z') ==> Normalize([c]) == [c]
  {
    assert [c][1..] == "";
    if 'A' <= c <= 'Z' { assert [c - 'A' + 'a'][1..] == ""; }
  }

  /** Character by character, a normal form is the entry without its separators, and in upper case. */
  lemma {:induction false} NormalizeIsUpper(entered: string)
    ensures |Normalize(entered)| == |Dropped(entered)|
    ensures forall i | 0 <= i < |Normalize(entered)| ::
              SameLetter(Normalize(entered)[i], Dropped(entered)[i]) && !('a' <= Normalize(entered)[i] <= 'z')
  {
    if entered != "" { NormalizeIsUpper(entered[1..]); }
  }

  lemma UpperIsUnique(a: char, b: char, x: char, y: char)
    requires SameLetter(x, a) && SameLetter(y, b) && !('a' <= x <= 'z') && !('a' <= y <= 'z')
    ensures x == y <==> SameLetter(a, b)
  {
  }

  /** Two codes are looked up as one exactly when they differ in separators and in case at most. */
  lemma SameCodeIff(a: string, b: string)
    ensures Normalize(a) == Normalize(b) <==> SameEntry(a, b)
  {
    NormalizeIsUpper(a);
    NormalizeIsUpper(b);
    forall i | 0 <= i < |Dropped(a)| && i < |Dropped(b)|
      ensures Normalize(a)[i] == Normalize(b)[i] <==> SameLetter(Dropped(a)[i], Dropped(b)[i])
    {
      UpperIsUnique(Dropped(a)[i], Dropped(b)[i], Normalize(a)[i], Normalize(b)[i]);
    }
    if SameEntry(a, b) {
      assert forall i | 0 <= i < |Normalize(a)| :: Normalize(a)[i] == Normalize(b)[i];
    }
  }
}
