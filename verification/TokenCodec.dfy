/** The client form of a refresh token (internal/auth/utils.go). */
module TokenCodec {
  import opened Wrappers

  const MAX_UINT64 := 0xffff_ffff_ffff_ffff

  function Digit(d: nat): char
    requires d < 10
  {
    '0' + d as char
  }

  predicate IsDigit(c: char) { '0' <= c <= '9' }

  function DigitValue(c: char): nat
    requires IsDigit(c)
  {
    (c - '0') as nat
  }

  /** Decimal print. */
  function Print(n: nat): (s: string)
    ensures s != [] && forall i :: 0 <= i < |s| ==> IsDigit(s[i])
  {
    if n < 10 then [Digit(n)] else Print(n / 10) + [Digit(n % 10)]
  }

  function Value(s: string): nat
    requires forall i :: 0 <= i < |s| ==> IsDigit(s[i])
  {
    if s == [] then 0 else 10 * Value(s[..|s| - 1]) + DigitValue(s[|s| - 1])
  }

  /** strconv.ParseUint in base 10 with 64 bits. */
  function ParseUint(s: string): Option<nat>
  {
    if s == [] || exists i :: 0 <= i < |s| && !IsDigit(s[i]) then None
    else if Value(s) > MAX_UINT64 then None
    else Some(Value(s))
  }

  /** strings.Split on a one-character separator. */
  function Split(s: string, separator: char): (parts: seq<string>)
    ensures parts != []
  {
    if s == [] then [[]]
    else
      var rest := Split(s[1..], separator);
      if s[0] == separator then [[]] + rest else [[s[0]] + rest[0]] + rest[1..]
  }

  function Format(id: nat, secret: string): string { Print(id) + "." + secret }

  function Parse(raw: string): Option<(nat, string)>
  {
    var parts := Split(raw, '.');
    if |parts| != 2 then None
    else
      match ParseUint(parts[0])
      case None => None
      case Some(id) => Some((id, parts[1]))
  }

  // ----- Numbers -----

  lemma {:induction false} ValueOfPrint(n: nat)
    ensures Value(Print(n)) == n
  {
    if n >= 10 {
      ValueOfPrint(n / 10);
      assert Print(n)[..|Print(n)| - 1] == Print(n / 10);
    }
  }

  /** Printing the value of a digit string gives it back exactly when it has no superfluous leading zero. */
  lemma {:induction false} PrintOfValue(s: string)
    requires s != [] && forall i :: 0 <= i < |s| ==> IsDigit(s[i])
    ensures Print(Value(s)) == s <==> s[0] != '0' || |s| == 1
    ensures s[0] != '0' && |s| > 1 ==> Value(s) >= 10
  {
    var n := |s| - 1;
    if n == 0 {
      assert Value(s[..0]) == 0;
    } else {
      var init := s[..n];
      PrintOfValue(init);
      assert init[0] == s[0];
      if s[0] == '0' {
        PrintStartsNonZero(Value(s));
      } else {
        assert Value(init) >= 1 by {
          if n == 1 {
            assert Value(init[..0]) == 0;
          }
        }
        assert Value(s) / 10 == Value(init) && Value(s) % 10 == DigitValue(s[n]);
        assert s == init + [s[n]];
      }
    }
  }

  lemma {:induction false} PrintStartsNonZero(n: nat)
    ensures Print(n)[0] == '0' ==> n == 0 && |Print(n)| == 1
  {
    if n >= 10 {
      PrintStartsNonZero(n / 10);
    }
  }

  // ----- Splitting -----

  lemma {:induction false} SplitAtFirst(head: string, tail: string, separator: char)
    requires separator !in head
    ensures Split(head + [separator] + tail, separator) == [head] + Split(tail, separator)
  {
    var s := head + [separator] + tail;
    if head == [] {
      assert s[1..] == tail;
    } else {
      assert s[1..] == head[1..] + [separator] + tail;
      SplitAtFirst(head[1..], tail, separator);
      assert [head[0]] + head[1..] == head;
    }
  }

  /** Parts hold no separator, one part is the string itself, and two join to it. */
  lemma {:induction false} SplitParts(s: string, separator: char)
    ensures var parts := Split(s, separator);
            && (|parts| == 1 <==> separator !in s)
            && (|parts| == 1 ==> parts[0] == s)
            && (|parts| == 2 ==> s == parts[0] + [separator] + parts[1])
            && (|parts| == 2 ==> separator !in parts[0] && separator !in parts[1])
  {
    if s != [] {
      SplitParts(s[1..], separator);
    }
  }

  // ----- The codec -----

  /** Parsing undoes formatting for every 64-bit id exactly when the secret has no dot, and else fails. */
  lemma ParseUndoesFormat(id: nat, secret: string)
    requires id <= MAX_UINT64
    ensures Parse(Format(id, secret)) == if '.' in secret then None else Some((id, secret))
  {
    assert '.' !in Print(id);
    SplitAtFirst(Print(id), secret, '.');
    SplitParts(secret, '.');
    ValueOfPrint(id);
  }

  /** Distinct tokens have distinct client forms, whatever their secrets are. */
  lemma FormatInjective(i: nat, s: string, j: nat, t: string)
    requires Format(i, s) == Format(j, t)
    ensures i == j && s == t
  {
    SplitAtFirst(Print(i), s, '.');
    SplitAtFirst(Print(j), t, '.');
    assert ([Print(i)] + Split(s, '.'))[0] == ([Print(j)] + Split(t, '.'))[0];
    ValueOfPrint(i);
    ValueOfPrint(j);
    assert s == Format(i, s)[|Print(i)| + 1..];
    assert t == Format(j, t)[|Print(j)| + 1..];
  }

  /** What parses is an id and a secret without dots; formatting them again gives the input exactly when the id
      was written without a superfluous zero. */
  lemma FormatUndoesParse(raw: string)
    requires Parse(raw).Some?
    ensures var (id, secret) := Parse(raw).value;
            && id <= MAX_UINT64 && '.' !in secret && |raw| >= 2
            && (Format(id, secret) == raw <==> raw[0] != '0' || raw[1] == '.')
  {
    var parts := Split(raw, '.');
    SplitParts(raw, '.');
    PrintOfValue(parts[0]);
    var (id, secret) := Parse(raw).value;
    assert raw == parts[0] + "." + secret;
    if Format(id, secret) == raw {
      ParseUndoesFormat(id, secret);
      SplitAtFirst(Print(id), secret, '.');
    }
  }
}
