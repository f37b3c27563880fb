/** The advisory-lock key of one revocable identity.

Text is modelled as its UTF-8 bytes, one character per byte, so `|s|` is the byte length the key
embeds. The key is `scope:len1:part1:len2:part2`; a parser that inverts it shows that two identities
never share a key, whatever bytes a host puts into them. */
module LockKeys {
  import opened Options

  function Digit(d: nat): (c: char)
    requires d < 10
    ensures c != ':'
    ensures DigitValue(c) == Some(d)
  {
    '0' + d as char
  }

  function DigitValue(c: char): (v: Option<nat>) {
    if '0' <= c <= '9' then Some((c - '0') as nat) else None
  }

  /** Decimal rendering, most significant digit first, no leading zero except for zero itself. */
  function Decimal(n: nat): (s: string)
    ensures |s| > 0 && ColonFree(s)
  {
    if n < 10 then [Digit(n)] else Decimal(n / 10) + [Digit(n % 10)]
  }

  function ScopeKey(scope: string, first: string, second: string): (key: string) {
    scope + ":" + Decimal(|first|) + ":" + first + ":" + Decimal(|second|) + ":" + second
  }

  // ----- the inverse

  /** Everything before the first colon, and everything after it. */
  function SplitColon(s: string): (r: Option<(string, string)>) {
    if s == "" then None
    else if s[0] == ':' then Some(("", s[1..]))
    else match SplitColon(s[1..])
      case None => None
      case Some((front, rest)) => Some(([s[0]] + front, rest))
  }

  function ParseDecimal(s: string): (r: Option<nat>) {
    if s == "" then Some(0)
    else match (ParseDecimal(s[..|s| - 1]), DigitValue(s[|s| - 1]))
      case (Some(hi), Some(lo)) => Some(10 * hi + lo)
      case _ => None
  }

  /** `len:part` and what follows the part. */
  function ParsePart(s: string): (r: Option<(string, string)>) {
    match SplitColon(s)
    case None => None
    case Some((digits, rest)) =>
      match ParseDecimal(digits)
      case None => None
      case Some(n) => if n <= |rest| then Some((rest[..n], rest[n..])) else None
  }

  function ParseScopeKey(key: string): (r: Option<(string, string, string)>) {
    match SplitColon(key)
    case None => None
    case Some((scope, rest)) =>
      match ParsePart(rest)
      case None => None
      case Some((first, rest)) =>
        if rest == "" || rest[0] != ':' then None
        else match ParsePart(rest[1..])
          case Some((second, "")) => Some((scope, first, second))
          case _ => None
  }

  // ----- the two are inverse

  predicate ColonFree(s: string) { forall i | 0 <= i < |s| :: s[i] != ':' }

  lemma {:induction false} SplitColonOfJoin(front: string, rest: string)
    requires ColonFree(front)
    ensures SplitColon(front + ":" + rest) == Some((front, rest))
  {
    var s := front + ":" + rest;
    if front == "" {
      assert s[1..] == rest;
    } else {
      assert s[1..] == front[1..] + ":" + rest;
      SplitColonOfJoin(front[1..], rest);
      assert [front[0]] + front[1..] == front;
    }
  }

  lemma ParseDecimalSnoc(s: string, d: nat)
    requires d < 10 && ParseDecimal(s).Some?
    ensures ParseDecimal(s + [Digit(d)]) == Some(10 * ParseDecimal(s).value + d)
  {
    var t := s + [Digit(d)];
    assert t[..|t| - 1] == s && t[|t| - 1] == Digit(d);
  }

  lemma {:induction false} ParseDecimalOfDecimal(n: nat)
    ensures ParseDecimal(Decimal(n)) == Some(n)
  {
    if n < 10 {
      ParseDecimalSnoc("", n);
    } else {
      ParseDecimalOfDecimal(n / 10);
      ParseDecimalSnoc(Decimal(n / 10), n % 10);
    }
  }

  lemma ParsePartOfEncoded(part: string, rest: string)
    ensures ParsePart(Decimal(|part|) + ":" + part + rest) == Some((part, rest))
  {
    var digits := Decimal(|part|);
    assert digits + ":" + part + rest == digits + ":" + (part + rest);
    SplitColonOfJoin(digits, part + rest);
    ParseDecimalOfDecimal(|part|);
    assert (part + rest)[..|part|] == part && (part + rest)[|part|..] == rest;
  }

  /** The parser recovers scope and both parts from every key, for arbitrary parts. */
  lemma KeyRoundTrip(scope: string, first: string, second: string)
    requires ColonFree(scope)
    ensures ParseScopeKey(ScopeKey(scope, first, second)) == Some((scope, first, second))
  {
    var inner := Decimal(|second|) + ":" + second;
    var outer := Decimal(|first|) + ":" + first + (":" + inner);
    assert ScopeKey(scope, first, second) == scope + ":" + outer;
    SplitColonOfJoin(scope, outer);
    ParsePartOfEncoded(first, ":" + inner);
    assert (":" + inner)[1..] == inner;
    assert inner == Decimal(|second|) + ":" + second + "";
    ParsePartOfEncoded(second, "");
  }

  /** Two identities share a key only if they are the same identity. */
  lemma KeyInjective(s1: string, a1: string, b1: string, s2: string, a2: string, b2: string)
    requires ColonFree(s1) && ColonFree(s2)
    requires ScopeKey(s1, a1, b1) == ScopeKey(s2, a2, b2)
    ensures s1 == s2 && a1 == a2 && b1 == b2
  {
    KeyRoundTrip(s1, a1, b1);
    KeyRoundTrip(s2, a2, b2);
  }

  /** The concatenation that preceded it, with a separator a host is free to use in its own strings. */
  function SeparatorKey(separator: string, first: string, second: string): (key: string) {
    first + separator + second
  }

  /** No separator works: for each one, two different pairs collapse onto one key. */
  lemma SeparatorKeyCollides(separator: string)
    requires separator != ""
    ensures exists a1, b1, a2, b2 ::
              (a1, b1) != (a2, b2) && SeparatorKey(separator, a1, b1) == SeparatorKey(separator, a2, b2)
  {
    assert SeparatorKey(separator, "a", separator + "b") == SeparatorKey(separator, "a" + separator, "b");
    assert "a" + separator != "a" by { assert |"a" + separator| > 1; }
  }
}
