/** The few java.lang.String operations the core relies on. */
module Text {

  /** `s.contains(sub)`, also SQL `s LIKE '%sub%'` (collation left out). */
  predicate Contains(s: string, sub: string) {
    exists i :: 0 <= i <= |s| - |sub| && OccursAt(s, sub, i)
  }

  predicate OccursAt(s: string, sub: string, i: int) {
    0 <= i <= |s| - |sub| && s[i..i + |sub|] == sub
  }

  /** A string lacking one of `sub`'s characters cannot contain `sub`. */
  lemma MissingCharNotContained(s: string, sub: string, k: nat)
    requires k < |sub| && sub[k] !in s
    ensures !Contains(s, sub)
  {
  }

  function DigitChar(d: int): (c: char)
    requires 0 <= d < 10
    ensures '0' <= c <= '9'
  {
    "0123456789"[d]
  }

  /** Decimal text of a non-negative number. */
  function NatText(n: nat): (s: string)
    ensures |s| > 0 && forall c :: c in s ==> '0' <= c <= '9'
  {
    if n < 10 then [DigitChar(n)] else NatText(n / 10) + [DigitChar(n % 10)]
  }

  /** Long.toString(id): what `"..." + id` appends. */
  function IdText(id: int): (s: string)
    ensures forall c :: c in s ==> c == '-' || '0' <= c <= '9'
  {
    if id < 0 then "-" + NatText(-id) else NatText(id)
  }

  predicate IsLowerHex(c: char) {
    '0' <= c <= '9' || 'a' <= c <= 'f'
  }

  predicate IsUpperHex(c: char) {
    '0' <= c <= '9' || 'A' <= c <= 'F'
  }

  /** Character.toUpperCase on a hexadecimal digit. */
  function UpperHexChar(c: char): (u: char)
    requires IsLowerHex(c)
    ensures IsUpperHex(u)
    ensures '0' <= c <= '9' ==> u == c
    ensures 'a' <= c <= 'f' ==> u as int == c as int - 32
  {
    if 'a' <= c <= 'f' then (c as int - 32) as char else c
  }

  /** toUpperCase() restricted to the characters of a UUID's text. */
  function HexToUpper(s: string): (r: string)
    requires forall c :: c in s ==> IsLowerHex(c)
    ensures |r| == |s|
    ensures forall i :: 0 <= i < |s| ==> r[i] == UpperHexChar(s[i])
  {
    if s == [] then [] else [UpperHexChar(s[0])] + HexToUpper(s[1..])
  }

  /** The text of a random UUID: 36 lower-case hexadecimal digits with dashes at 8, 13, 18 and 23. */
  predicate IsUuidText(u: string) {
    |u| == 36 &&
    forall i :: 0 <= i < 36 ==> if i == 8 || i == 13 || i == 18 || i == 23 then u[i] == '-' else IsLowerHex(u[i])
  }

  /** `prefix + uuid.substring(0, 8).toUpperCase()`: the prefix and eight upper-case hex digits. */
  function UuidCode(prefix: string, uuid: string): (code: string)
    requires IsUuidText(uuid)
    ensures |code| == |prefix| + 8 && code[..|prefix|] == prefix
    ensures forall i :: |prefix| <= i < |code| ==> IsUpperHex(code[i])
  {
    var head := uuid[..8];
    assert forall c :: c in head ==> IsLowerHex(c) by {
      forall c | c in head ensures IsLowerHex(c) {
        var i :| 0 <= i < 8 && head[i] == c;
        assert uuid[i] == c;
      }
    }
    prefix + HexToUpper(head)
  }

  /** Two codes differ exactly when the UUIDs' first eight characters differ. */
  lemma UuidCodeInjective(prefix: string, u1: string, u2: string)
    requires IsUuidText(u1) && IsUuidText(u2)
    ensures UuidCode(prefix, u1) == UuidCode(prefix, u2) <==> u1[..8] == u2[..8]
  {
    if u1[..8] != u2[..8] {
      var i :| 0 <= i < 8 && u1[i] != u2[i];
      var c1, c2 := UuidCode(prefix, u1), UuidCode(prefix, u2);
      assert c1[|prefix| + i] == UpperHexChar(u1[i]);
      assert c2[|prefix| + i] == UpperHexChar(u2[i]);
      assert c1[|prefix| + i] != c2[|prefix| + i];
    }
  }
}
