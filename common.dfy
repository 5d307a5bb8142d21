/** Small helpers shared by the model: an optional value (Java's nullable
    references), string joining and the integer/text conversions that Java's
    string concatenation performs implicitly. */
module Common {

  datatype Option<+T> = None | Some(value: T)

  /** `parts` with `sep` between consecutive parts (String.join). */
  function Join(parts: seq<string>, sep: string): string
  {
    if |parts| == 0 then ""
    else if |parts| == 1 then parts[0]
    else parts[0] + sep + Join(parts[1..], sep)
  }

  /** `part` occurs as a contiguous piece of `whole`. */
  predicate IsInfix(part: string, whole: string)
  {
    exists i, j :: 0 <= i <= j <= |whole| && whole[i..j] == part
  }

  /** Every part survives, as a contiguous piece, in the joined string. */
  lemma {:induction false} JoinContains(parts: seq<string>, sep: string, k: nat)
    requires k < |parts|
    ensures IsInfix(parts[k], Join(parts, sep))
  {
    var whole := Join(parts, sep);
    if |parts| == 1 {
      assert whole[0..|whole|] == parts[k];
    } else if k == 0 {
      assert whole[0..|parts[0]|] == parts[0];
    } else {
      var rest := Join(parts[1..], sep);
      JoinContains(parts[1..], sep, k - 1);
      var i, j :| 0 <= i <= j <= |rest| && rest[i..j] == parts[1..][k - 1];
      var offset := |parts[0]| + |sep|;
      assert whole == parts[0] + sep + rest;
      assert whole[offset + i..offset + j] == rest[i..j];
    }
  }

  function Digit(d: nat): char
    requires d < 10
  {
    "0123456789"[d]
  }

  /** Decimal rendering of a natural number, as Integer.toString does. */
  function NatToString(n: nat): string
  {
    if n < 10 then [Digit(n)] else NatToString(n / 10) + [Digit(n % 10)]
  }

  function IntToString(i: int): string
  {
    if i < 0 then "-" + NatToString(-i) else NatToString(i)
  }

  function LowerChar(c: char): char
  {
    if 'A' <= c <= 'Z' then (c as int - 'A' as int + 'a' as int) as char else c
  }

  /** String.toLowerCase restricted to ASCII letters (HTTP method names). */
  function Lower(s: string): (r: string)
    ensures |r| == |s|
  {
    seq(|s|, k requires 0 <= k < |s| => LowerChar(s[k]))
  }
}
