/** The parts of Go's `strings`, `strconv` and `fmt` packages that the engine
    relies on, for single-character separators: `strings.Split`,
    `strings.Join`, `strings.TrimRight` with a one-character cutset,
    `strings.ToLower` on ASCII letters, and `%d` formatting. */
module GoStrings {

  /** Index of the first occurrence of `c` in `s`, or -1. */
  function IndexOf(s: string, c: char): (r: int)
    ensures -1 <= r < |s|
    ensures r == -1 <==> c !in s
    ensures r >= 0 ==> s[r] == c && c !in s[..r]
  {
    if |s| == 0 then -1
    else if s[0] == c then 0
    else
      var k := IndexOf(s[1..], c);
      if k < 0 then -1
      else
        assert s[..k + 1] == [s[0]] + s[1..][..k];
        k + 1
  }

  /** `strings.Join(parts, string(c))`. */
  function Join(parts: seq<string>, c: char): string
  {
    if |parts| == 0 then ""
    else if |parts| == 1 then parts[0]
    else parts[0] + [c] + Join(parts[1..], c)
  }

  /** `strings.Split(s, string(c))`: the pieces between the occurrences of `c`.
      There is always at least one piece; joining them gives `s` back. */
  function Split(s: string, c: char): (r: seq<string>)
    ensures |r| >= 1
    ensures forall k | 0 <= k < |r| :: c !in r[k]
    ensures Join(r, c) == s
    decreases |s|
  {
    var i := IndexOf(s, c);
    if i < 0 then [s]
    else
      var rest := Split(s[i + 1..], c);
      assert s == s[..i] + [c] + s[i + 1..];
      [s[..i]] + rest
  }

  /** The first piece of a split is a prefix of the string. */
  lemma SplitFirst(s: string, c: char)
    ensures Split(s, c)[0] <= s
  {
    var r := Split(s, c);
    if |r| > 1 {
      assert s == r[0] + [c] + Join(r[1..], c);
    }
  }

  /** Joining one more piece adds the separator and that piece. */
  lemma {:induction false} JoinSnoc(parts: seq<string>, x: string, c: char)
    ensures Join(parts + [x], c) == if |parts| == 0 then x else Join(parts, c) + [c] + x
  {
    if |parts| > 1 {
      JoinSnoc(parts[1..], x, c);
      assert (parts + [x])[1..] == parts[1..] + [x];
    } else if |parts| == 1 {
      assert (parts + [x])[1..] == [x];
    }
  }

  /** The last piece of `strings.Split(s, string(c))`. */
  function LastPiece(s: string, c: char): (r: string)
    ensures c !in r
  {
    var parts := Split(s, c);
    parts[|parts| - 1]
  }

  /** A join ends with its last piece, preceded by the separator when there
      is more than one piece. */
  lemma {:induction false} JoinEnds(parts: seq<string>, c: char)
    requires |parts| >= 1
    ensures var j := Join(parts, c); var l := parts[|parts| - 1];
            |l| <= |j| && j[|j| - |l|..] == l && (|parts| > 1 ==> |l| < |j| && j[|j| - |l| - 1] == c)
  {
    if |parts| > 1 {
      var tail := parts[1..];
      var l := parts[|parts| - 1];
      assert tail[|tail| - 1] == l;
      JoinEnds(tail, c);
      var jt := Join(tail, c);
      var j := Join(parts, c);
      assert j == parts[0] + [c] + jt;
      assert j[|j| - |l|..] == jt[|jt| - |l|..];
      if |tail| == 1 {
        assert j[|j| - |l| - 1] == c;
      } else {
        assert j[|j| - |l| - 1] == jt[|jt| - |l| - 1];
      }
    }
  }

  /** The last piece is what follows the last `c` (all of `s` when there is
      none). */
  lemma LastPieceSuffix(s: string, c: char)
    ensures |LastPiece(s, c)| <= |s| && s[|s| - |LastPiece(s, c)|..] == LastPiece(s, c)
    ensures |LastPiece(s, c)| < |s| ==> s[|s| - |LastPiece(s, c)| - 1] == c
  {
    var parts := Split(s, c);
    JoinEnds(parts, c);
    if |parts| == 1 {
      assert Join(parts, c) == parts[0];
    }
  }

  /** What follows the last `c` is the last piece. */
  lemma LastPieceAfter(a: string, c: char, b: string)
    requires c !in b
    ensures LastPiece(a + [c] + b, c) == b
  {
    var s := a + [c] + b;
    var l := LastPiece(s, c);
    LastPieceSuffix(s, c);
    assert s[|s| - |b|..] == b;
    assert s[|s| - |b| - 1] == c;
    InSuffix(s, l, |b|);
    InSuffix(s, b, |l|);
  }

  /** The k-th character from the end of `s` lies in any suffix `t` of `s`
      longer than k. */
  lemma InSuffix(s: string, t: string, k: nat)
    ensures |t| <= |s| && t == s[|s| - |t|..] && k < |t| ==> s[|s| - k - 1] in t
  {
    if |t| <= |s| && t == s[|s| - |t|..] && k < |t| {
      assert t[|t| - k - 1] == s[|s| - k - 1];
    }
  }

  lemma IndexOfAfterPrefix(a: string, c: char, b: string)
    requires c !in a
    ensures IndexOf(a + [c] + b, c) == |a|
  {
    var s := a + [c] + b;
    assert s[|a|] == c;
    assert s[..|a|] == a;
    forall k | |a| < k <= |s| ensures c in s[..k] {
      assert s[..k][|a|] == c;
    }
  }

  /** Splitting at the first separator: the piece before it, then the pieces
      of what follows. */
  lemma SplitCons(a: string, c: char, b: string)
    requires c !in a
    ensures Split(a + [c] + b, c) == [a] + Split(b, c)
  {
    var s := a + [c] + b;
    IndexOfAfterPrefix(a, c, b);
    assert s[..|a|] == a;
    assert s[|a| + 1..] == b;
  }

  /** One more piece in front of a join that splits back correctly. */
  lemma SplitJoinStep(head: string, tail: seq<string>, c: char)
    requires |tail| >= 1 && c !in head
    requires Split(Join(tail, c), c) == tail
    ensures Split(Join([head] + tail, c), c) == [head] + tail
  {
    var parts := [head] + tail;
    assert parts[1..] == tail;
    assert Join(parts, c) == head + [c] + Join(tail, c);
    SplitCons(head, c, Join(tail, c));
  }

  /** Splitting a join of separator-free pieces gives back exactly those pieces. */
  lemma {:induction false} SplitJoin(parts: seq<string>, c: char)
    requires |parts| >= 1
    requires forall k | 0 <= k < |parts| :: c !in parts[k]
    ensures Split(Join(parts, c), c) == parts
  {
    if |parts| == 1 {
      assert IndexOf(parts[0], c) == -1;
    } else {
      var tail := parts[1..];
      assert forall k | 0 <= k < |tail| :: tail[k] == parts[k + 1];
      SplitJoin(tail, c);
      SplitJoinStep(parts[0], tail, c);
      assert parts == [parts[0]] + tail;
    }
  }

  /** `strings.TrimRight(s, string(c))`: drops every trailing `c`. */
  function TrimRight(s: string, c: char): (r: string)
    ensures r <= s
    ensures r == [] || r[|r| - 1] != c
    ensures forall k | |r| <= k < |s| :: s[k] == c
  {
    if |s| > 0 && s[|s| - 1] == c then TrimRight(s[..|s| - 1], c) else s
  }

  /** A string that does not end in `c` is left alone by `TrimRight`. */
  lemma TrimRightNoTrailing(s: string, c: char)
    requires s == [] || s[|s| - 1] != c
    ensures TrimRight(s, c) == s
  {
  }

  function LowerChar(ch: char): char
  {
    if 'A' <= ch <= 'Z' then (ch as int + 32) as char else ch
  }

  /** `strings.ToLower`, restricted to ASCII letters. */
  function ToLower(s: string): (r: string)
    ensures |r| == |s|
    ensures forall k | 0 <= k < |s| :: r[k] == LowerChar(s[k])
  {
    seq(|s|, k requires 0 <= k < |s| => LowerChar(s[k]))
  }

  /** A string without upper-case letters is its own lower-case form. */
  lemma ToLowerKeepsLower(s: string)
    requires forall k | 0 <= k < |s| :: !('A' <= s[k] <= 'Z')
    ensures ToLower(s) == s
  {
  }

  function DigitChar(d: int): char
    requires 0 <= d < 10
  {
    ('0' as int + d) as char
  }

  /** The number a string of decimal digits spells. */
  function DecimalValue(s: string): int
  {
    if |s| == 0 then 0 else DecimalValue(s[..|s| - 1]) * 10 + (s[|s| - 1] as int - '0' as int)
  }

  /** The decimal digits of `n`: they spell `n`, with no leading zero. */
  function NatToDecimal(n: nat): (r: string)
    ensures |r| >= 1
    ensures forall k | 0 <= k < |r| :: '0' <= r[k] <= '9'
    ensures r[0] == '0' ==> r == "0"
    ensures DecimalValue(r) == n
  {
    if n < 10 then [DigitChar(n)]
    else
      var front := NatToDecimal(n / 10);
      var r := front + [DigitChar(n % 10)];
      assert r[..|r| - 1] == front;
      r
  }

  /** `fmt.Sprintf("%d", n)`. The result holds digits and at most a sign, and
      never a separator character. */
  function Itoa(n: int): (r: string)
    ensures |r| >= 1
    ensures forall k | 0 <= k < |r| :: r[k] == '-' || '0' <= r[k] <= '9'
    ensures n >= 0 ==> DecimalValue(r) == n
    ensures n < 0 ==> r[0] == '-' && DecimalValue(r[1..]) == -n
  {
    if n < 0 then "-" + NatToDecimal(-n) else NatToDecimal(n)
  }
}
