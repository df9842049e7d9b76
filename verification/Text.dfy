/** The string helpers the handlers rely on. */
module Text {

  function DigitChar(d: nat): (c: char)
    requires d < 10
    ensures '0' <= c <= '9'
  {
    '0' + d as char
  }

  /** Decimal rendering of an id, as in `strconv.FormatUint(id, 10)`. */
  function FormatUint(n: nat): (s: string)
    ensures |s| >= 1
  {
    if n < 10 then [DigitChar(n)] else FormatUint(n / 10) + [DigitChar(n % 10)]
  }

  /** Two ids that print alike are the same id. */
  lemma {:induction false} FormatUintInjective(m: nat, n: nat)
    requires FormatUint(m) == FormatUint(n)
    ensures m == n
    decreases m
  {
    var s, t := FormatUint(m), FormatUint(n);
    assert s[|s| - 1] == t[|t| - 1];
    assert m % 10 == n % 10;
    if m >= 10 {
      assert n >= 10;
      assert s[..|s| - 1] == FormatUint(m / 10);
      assert t[..|t| - 1] == FormatUint(n / 10);
      FormatUintInjective(m / 10, n / 10);
    }
  }

  /** A tag such as "dispute:" followed by an id. */
  function Tagged(tag: string, id: nat): string {
    tag + FormatUint(id)
  }

  lemma TaggedInjective(tag: string, m: nat, n: nat)
    requires Tagged(tag, m) == Tagged(tag, n)
    ensures m == n
  {
    assert Tagged(tag, m)[|tag|..] == FormatUint(m);
    assert Tagged(tag, n)[|tag|..] == FormatUint(n);
    FormatUintInjective(m, n);
  }

  function LowerChar(c: char): char {
    if 'A' <= c <= 'Z' then c - 'A' + 'a' else c
  }

  /** `strings.EqualFold` on ASCII text. */
  predicate EqualFold(s: string, t: string) {
    |s| == |t| && forall i | 0 <= i < |s| :: LowerChar(s[i]) == LowerChar(t[i])
  }

  predicate IsHexChar(c: char) {
    '0' <= c <= '9' || 'a' <= c <= 'f' || 'A' <= c <= 'F'
  }

  predicate IsHexSha256(s: string) {
    |s| == 64 && forall i | 0 <= i < |s| :: IsHexChar(s[i])
  }

  predicate IsSpace(c: char) {
    '\t' <= c <= '\r' || c == ' ' || c == '\U{0085}' || c == '\U{00A0}' || c == '\U{1680}'
    || '\U{2000}' <= c <= '\U{200A}' || c == '\U{2028}' || c == '\U{2029}'
    || c == '\U{202F}' || c == '\U{205F}' || c == '\U{3000}'
  }

  /** `strings.TrimSpace(s) == ""`. */
  predicate Blank(s: string) {
    forall i | 0 <= i < |s| :: IsSpace(s[i])
  }

  /** The number a string of digits stands for. */
  function Decimal(s: string): nat {
    if s == [] then 0 else 10 * Decimal(s[..|s| - 1]) + (if '0' <= s[|s| - 1] <= '9' then s[|s| - 1] as nat - '0' as nat else 0)
  }

  /** An id prints as a string of digits, without a leading zero, that stands for it. */
  lemma {:induction false} PrintsAsDecimal(n: nat)
    ensures Decimal(FormatUint(n)) == n
    ensures forall i | 0 <= i < |FormatUint(n)| :: '0' <= FormatUint(n)[i] <= '9'
    ensures FormatUint(n)[0] == '0' <==> n == 0
    decreases n
  {
    var s := FormatUint(n);
    if n < 10 {
      assert s[..|s| - 1] == [];
    } else {
      PrintsAsDecimal(n / 10);
      assert s[..|s| - 1] == FormatUint(n / 10);
    }
  }

  /** White space by code point. */
  predicate SpaceCode(n: int) {
    9 <= n <= 13 || n == 32 || n == 133 || n == 160 || n == 5760 || 8192 <= n <= 8202 || n in {8232, 8233, 8239, 8287, 12288}
  }

  /** A blank text has no character that is not white space. */
  lemma BlankMeans(s: string)
    ensures Blank(s) <==> forall c | c in s :: SpaceCode(c as int)
  {
    forall i | 0 <= i < |s|
      ensures IsSpace(s[i]) <==> SpaceCode(s[i] as int)
    {
      SpaceCodes(s[i]);
    }
    if forall c | c in s :: SpaceCode(c as int) {
      forall i | 0 <= i < |s|
        ensures IsSpace(s[i])
      {
        assert s[i] in s;
      }
    }
  }

  lemma SpaceCodes(c: char)
    ensures IsSpace(c) <==> SpaceCode(c as int)
  {
  }
}
