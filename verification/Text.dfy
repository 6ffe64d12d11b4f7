/** The string operations the queries and the Go code apply to state names, on ASCII letters. */
module Text {
  function UpperChar(c: char): char
  {
    if 'a' <= c <= 'z' then c - 'a' + 'A' else c
  }

  /** UPPER and strings.ToUpper. */
  function Upper(s: string): string
  {
    seq(|s|, i requires 0 <= i < |s| => UpperChar(s[i]))
  }

  /** TRIM removes spaces only. */
  predicate IsSpace(c: char) { c == ' ' }

  /** strings.TrimSpace removes every white-space character. */
  predicate IsWhite(c: char)
  {
    c == ' ' || c == '\t' || c == '\n' || c == '\r' || c == '\U{0b}' || c == '\U{0c}' || c == '\U{85}' || c == '\U{a0}'
  }

  function TrimWith(s: string, drop: char -> bool): string
  {
    if s == [] then s
    else if drop(s[0]) then TrimWith(s[1..], drop)
    else if drop(s[|s| - 1]) then TrimWith(s[..|s| - 1], drop)
    else s
  }

  /** UPPER(TRIM(s)): names that agree under it are the same state to the queries. */
  function Fold(s: string): string { Upper(TrimWith(s, IsSpace)) }

  lemma {:induction false} UpperTrims(s: string)
    ensures Upper(TrimWith(s, IsSpace)) == TrimWith(Upper(s), IsSpace)
  {
    if s != [] {
      if IsSpace(s[0]) {
        assert Upper(s)[1..] == Upper(s[1..]);
        UpperTrims(s[1..]);
      } else if IsSpace(s[|s| - 1]) {
        assert Upper(s)[..|s| - 1] == Upper(s[..|s| - 1]);
        UpperTrims(s[..|s| - 1]);
      }
    }
  }

  /** Names equal up to case are the same folded name. */
  lemma FoldFollowsUpper(s: string, t: string)
    requires Upper(s) == Upper(t)
    ensures Fold(s) == Fold(t)
  {
    UpperTrims(s);
    UpperTrims(t);
  }

  function TrimSpace(s: string): string { TrimWith(s, IsWhite) }

  /** strings.Contains. */
  predicate Contains(s: string, part: string)
  {
    part <= s || (s != [] && Contains(s[1..], part))
  }
}
