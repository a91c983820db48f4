/** The string operations the search boxes use: `toLowerCase`,
    `includes` and the decimal `toString` of a proposal id. */
module Text {

  predicate IsUpper(c: char)
  {
    'A' <= c <= 'Z'
  }

  /** `toLowerCase` on one character, for the ASCII letters. */
  function LowerChar(c: char): char
  {
    if IsUpper(c) then (c as int + 32) as char else c
  }

  function ToLower(s: string): string
  {
    seq(|s|, i requires 0 <= i < |s| => LowerChar(s[i]))
  }

  /** Lower-casing keeps the length, leaves no upper-case letter behind,
      turns each upper-case letter into its lower-case counterpart 32 code
      points later, changes nothing else, and lower-casing again changes nothing. */
  lemma ToLowerProperties(s: string)
    ensures |ToLower(s)| == |s|
    ensures forall i :: 0 <= i < |s| ==> !IsUpper(ToLower(s)[i])
    ensures forall i :: 0 <= i < |s| && IsUpper(s[i]) ==> ToLower(s)[i] as int == s[i] as int + 32
    ensures forall i :: 0 <= i < |s| && !IsUpper(s[i]) ==> ToLower(s)[i] == s[i]
    ensures ToLower(ToLower(s)) == ToLower(s)
  {
  }

  predicate StartsWith(s: string, q: string)
  {
    |q| <= |s| && s[..|q|] == q
  }

  /** `s.includes(q)`: does `q` occur in `s` at some offset? */
  predicate Contains(s: string, q: string)
  {
    StartsWith(s, q) || (s != [] && Contains(s[1..], q))
  }

  ghost predicate OccursAt(s: string, q: string, i: int)
  {
    0 <= i && i + |q| <= |s| && s[i..i + |q|] == q
  }

  /** `Contains` finds exactly the offsets at which `q` occurs. */
  lemma {:induction false} ContainsIff(s: string, q: string)
    ensures Contains(s, q) <==> exists i :: OccursAt(s, q, i)
  {
    if StartsWith(s, q) {
      assert OccursAt(s, q, 0);
    } else if s != [] {
      ContainsIff(s[1..], q);
      if exists i :: OccursAt(s, q, i) {
        var i :| OccursAt(s, q, i);
        assert i != 0;
        assert s[1..][i - 1..i - 1 + |q|] == s[i..i + |q|];
        assert OccursAt(s[1..], q, i - 1);
      }
      if exists i :: OccursAt(s[1..], q, i) {
        var i :| OccursAt(s[1..], q, i);
        assert s[1..][i..i + |q|] == s[i + 1..i + 1 + |q|];
        assert OccursAt(s, q, i + 1);
      }
    }
  }

  /** A query holding a character the string lacks does not occur in it. */
  lemma MissingCharNotContained(s: string, q: string, c: char)
    requires c in q && c !in s
    ensures !Contains(s, q)
  {
    ContainsIff(s, q);
  }

  /** Lower-casing brings in no lower-case letter whose upper-case form
      and itself are both absent. */
  lemma LowerCaseMissing(s: string, c: char)
    requires 'a' <= c <= 'z'
    requires c !in s && (c as int - 32) as char !in s
    ensures c !in ToLower(s)
  {
  }

  /** The empty query occurs in every string. */
  lemma ContainsEmpty(s: string)
    ensures Contains(s, "")
  {
  }

  /** The search of the two voting pages: the lower-cased title contains the
      lower-cased query, or the id written in decimal contains the raw query. */
  predicate MatchesTitleOrId(title: string, id: nat, query: string)
  {
    Contains(ToLower(title), ToLower(query)) || Contains(NatToString(id), query)
  }

  /** The search of the documentation page: the title only. */
  predicate MatchesTitle(title: string, term: string)
  {
    Contains(ToLower(title), ToLower(term))
  }

  /** Every record passes an empty query. */
  lemma EmptyQueryMatches(title: string, id: nat)
    ensures MatchesTitle(title, "")
    ensures MatchesTitleOrId(title, id, "")
  {
    assert ToLower("") == "";
  }

  function DigitChar(d: nat): char
    requires d < 10
  {
    ['0', '1', '2', '3', '4', '5', '6', '7', '8', '9'][d]
  }

  predicate IsDigit(c: char)
  {
    '0' <= c <= '9'
  }

  /** `Number.prototype.toString()` for a non-negative integer: its decimal
      digits, most significant first, without leading zeros. */
  function NatToString(n: nat): (s: string)
    ensures |s| > 0
    ensures forall i :: 0 <= i < |s| ==> IsDigit(s[i])
    ensures s[0] == '0' ==> n == 0
  {
    if n < 10 then [DigitChar(n)] else NatToString(n / 10) + [DigitChar(n % 10)]
  }

  /** Reads a string of decimal digits back as a number. */
  function ParseDecimal(s: string): nat
    requires forall i :: 0 <= i < |s| ==> IsDigit(s[i])
  {
    if s == [] then 0
    else
      var last := s[|s| - 1];
      assert IsDigit(last);
      ParseDecimal(s[..|s| - 1]) * 10 + (last as int - '0' as int)
  }

  /** The decimal string of an id reads back as that id, so distinct ids
      have distinct strings. */
  lemma {:induction false} ParseNatToString(n: nat)
    ensures ParseDecimal(NatToString(n)) == n
  {
    if n >= 10 {
      var s := NatToString(n);
      assert s[..|s| - 1] == NatToString(n / 10);
      ParseNatToString(n / 10);
    }
  }
}
