/** The handful of Python string operations the client relies on:
    `c in s`, `s.split(c)`, `sep.join(parts)` and `int(s)` on decimal text. */
module Text {
  import opened Wrappers

  /** Position of the first `c` in `s`. */
  function IndexOf(s: string, c: char): (i: nat)
    requires c in s
    ensures i < |s| && s[i] == c
    ensures c !in s[..i]
  {
    if s[0] == c then 0
    else
      var j := IndexOf(s[1..], c);
      assert s[..j + 1] == [s[0]] + s[1..][..j];
      j + 1
  }

  /** The text before the first `c`; all of `s` when `c` does not occur. */
  function Before(s: string, c: char): (b: string)
    ensures c !in b
    ensures b <= s
    ensures c in s ==> |b| < |s| && s[|b|] == c
    ensures c !in s ==> b == s
  {
    if c in s then s[..IndexOf(s, c)] else s
  }

  /** The text after the first `c`; empty when `c` does not occur. */
  function After(s: string, c: char): (a: string)
    ensures c in s ==> s == Before(s, c) + [c] + a
    ensures c !in s ==> a == ""
  {
    if c in s then s[IndexOf(s, c) + 1..] else ""
  }

  /** Python's `s.split(sep)` with an explicit one-character separator:
      empty pieces are kept, so there is one piece more than there are
      separators. */
  function Split(s: string, sep: char): (parts: seq<string>)
    ensures |parts| >= 1 && parts[0] == Before(s, sep)
    ensures |parts| >= 2 <==> sep in s
    decreases |s|
  {
    if sep in s then [Before(s, sep)] + Split(After(s, sep), sep) else [s]
  }

  /** Python's `sep.join(parts)`; joining nothing gives the empty string. */
  function Join(parts: seq<string>, sep: string): (s: string)
    ensures |parts| >= 1 ==> parts[0] <= s
  {
    if |parts| == 0 then ""
    else if |parts| == 1 then parts[0]
    else parts[0] + sep + Join(parts[1..], sep)
  }

  /** No piece of a split contains the separator. */
  lemma {:induction false} SplitPiecesFree(s: string, sep: char)
    ensures forall k :: 0 <= k < |Split(s, sep)| ==> sep !in Split(s, sep)[k]
    decreases |s|
  {
    if sep in s {
      SplitPiecesFree(After(s, sep), sep);
      assert Split(s, sep) == [Before(s, sep)] + Split(After(s, sep), sep);
    }
  }

  /** The first separator of x + [c] + y, for a c-free x, is the one between them. */
  lemma FirstSeparator(x: string, c: char, y: string)
    requires c !in x
    ensures Before(x + [c] + y, c) == x && After(x + [c] + y, c) == y
  {
    var s := x + [c] + y;
    assert s[|x|] == c;
    assert s[..|x|] == x;
  }

  /** The second piece of a split is the text between the first and the
      second separator (or the end). */
  lemma SplitSecond(s: string, sep: char)
    requires sep in s
    ensures Split(s, sep)[1] == Before(After(s, sep), sep)
  {
  }

  /** Joining the pieces of a split with the same separator gives back the text. */
  lemma {:induction false} JoinSplit(s: string, sep: char)
    ensures Join(Split(s, sep), [sep]) == s
    decreases |s|
  {
    if sep in s {
      var a := After(s, sep);
      JoinSplit(a, sep);
      var rest := Split(a, sep);
      assert Split(s, sep) == [Before(s, sep)] + rest;
      assert Join(Split(s, sep), [sep]) == Before(s, sep) + [sep] + Join(rest, [sep]);
    }
  }

  /** Splitting a join of separator-free pieces gives back the pieces. */
  lemma {:induction false} SplitJoin(parts: seq<string>, sep: char)
    requires |parts| >= 1
    requires forall k :: 0 <= k < |parts| ==> sep !in parts[k]
    ensures Split(Join(parts, [sep]), sep) == parts
  {
    if |parts| > 1 {
      var rest := parts[1..];
      var tail := Join(rest, [sep]);
      var s := parts[0] + [sep] + tail;
      assert Join(parts, [sep]) == s;
      FirstSeparator(parts[0], sep, tail);
      assert s[|parts[0]|] == sep;
      assert Split(s, sep) == [parts[0]] + Split(tail, sep);
      assert forall k :: 0 <= k < |rest| ==> rest[k] == parts[k + 1];
      SplitJoin(rest, sep);
      assert parts == [parts[0]] + rest;
    }
  }

  predicate IsDigit(c: char) {
    '0' <= c <= '9'
  }

  predicate AllDigits(s: string) {
    forall k :: 0 <= k < |s| ==> IsDigit(s[k])
  }

  /** The number a string of decimal digits denotes. */
  function DigitsValue(s: string): nat
    requires AllDigits(s)
    decreases |s|
  {
    if s == [] then 0
    else 10 * DigitsValue(s[..|s| - 1]) + (s[|s| - 1] as int - '0' as int)
  }

  /** Python's `int(s)` restricted to unsigned decimal text: `None` stands
      for the `ValueError` that `int` raises. */
  function ParseDecimal(s: string): (r: Option<nat>)
    ensures r.Some? <==> s != "" && AllDigits(s)
  {
    if s != "" && AllDigits(s) then Some(DigitsValue(s)) else None
  }

  /** The shortest decimal spelling of `n`. */
  function ShowDecimal(n: nat): (s: string)
    ensures s != "" && AllDigits(s)
  {
    var d := ['0' + (n % 10) as char];
    if n < 10 then d else ShowDecimal(n / 10) + d
  }

  /** Parsing the decimal spelling of a number gives back the number. */
  lemma {:induction false} ParseShowDecimal(n: nat)
    ensures ParseDecimal(ShowDecimal(n)) == Some(n)
  {
    var s := ShowDecimal(n);
    if n < 10 {
      assert s[..|s| - 1] == [];
    } else {
      ParseShowDecimal(n / 10);
      assert s[..|s| - 1] == ShowDecimal(n / 10);
    }
    assert DigitsValue(s) == 10 * DigitsValue(s[..|s| - 1]) + n % 10;
  }
}
