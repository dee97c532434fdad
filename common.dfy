/** Small building blocks shared by every component: optional values, the
    status of a worker function, and the handful of Python string operations
    the source relies on (`in` on strings, `lower()`, `upper()`, `str(n)`). */
module Common {

  datatype Option<T> = None | Some(value: T)

  /** The status half of a worker function's result tuple. */
  datatype Status = Done | Failed

  /** Python `str(x)` of a value that may be `None`. */
  function Show(o: Option<string>): string
  {
    match o
    case None => "None"
    case Some(s) => s
  }

  /** Python truthiness of an optional string: present and non-empty. */
  predicate Truthy(o: Option<string>)
  {
    o.Some? && o.value != ""
  }

  /** Python's `w in s` for strings. */
  predicate Contains(s: string, w: string)
    decreases |s|
  {
    (|w| <= |s| && s[..|w|] == w) || (|s| > 0 && Contains(s[1..], w))
  }

  /** `w` occurs in `s` at position `i`. */
  predicate OccursAt(s: string, w: string, i: int)
  {
    0 <= i && i + |w| <= |s| && s[i..i + |w|] == w
  }

  /** `Contains` holds exactly when the word occurs at some position. */
  lemma {:induction false} ContainsIff(s: string, w: string)
    ensures Contains(s, w) <==> exists i :: OccursAt(s, w, i)
    decreases |s|
  {
    if Contains(s, w) {
      if |w| <= |s| && s[..|w|] == w {
        assert OccursAt(s, w, 0);
      } else {
        ContainsIff(s[1..], w);
        var i :| OccursAt(s[1..], w, i);
        assert s[1..][i..i + |w|] == s[i + 1..i + 1 + |w|];
        assert OccursAt(s, w, i + 1);
      }
    }
    if exists i :: OccursAt(s, w, i) {
      var i :| OccursAt(s, w, i);
      if i > 0 {
        assert s[1..][i - 1..i - 1 + |w|] == s[i..i + |w|];
        assert OccursAt(s[1..], w, i - 1);
        ContainsIff(s[1..], w);
      } else {
        assert s[..|w|] == s[0..0 + |w|];
      }
    }
  }

  /** A witness position is enough to show containment. */
  lemma ContainsAt(s: string, w: string, i: int)
    requires OccursAt(s, w, i)
    ensures Contains(s, w)
  {
    ContainsIff(s, w);
  }

  /** Lower-casing of one character; only ASCII letters are mapped. */
  function LowerChar(c: char): char
  {
    if 'A' <= c <= 'Z' then (c as int + 32) as char else c
  }

  /** Upper-casing of one character; only ASCII letters are mapped. */
  function UpperChar(c: char): char
  {
    if 'a' <= c <= 'z' then (c as int - 32) as char else c
  }

  /** Python `s.lower()`, restricted to ASCII letters. */
  function Lower(s: string): (r: string)
    ensures |r| == |s|
    ensures forall i :: 0 <= i < |s| ==> r[i] == LowerChar(s[i])
  {
    if s == [] then [] else [LowerChar(s[0])] + Lower(s[1..])
  }

  /** Python `s.upper()`, restricted to ASCII letters. */
  function Upper(s: string): (r: string)
    ensures |r| == |s|
    ensures forall i :: 0 <= i < |s| ==> r[i] == UpperChar(s[i])
  {
    if s == [] then [] else [UpperChar(s[0])] + Upper(s[1..])
  }

  /** Lower-casing distributes over concatenation. */
  lemma LowerAppend(a: string, b: string)
    ensures Lower(a + b) == Lower(a) + Lower(b)
  {
    assert forall i :: 0 <= i < |a + b| ==> Lower(a + b)[i] == (Lower(a) + Lower(b))[i];
  }

  /** The three parts of a concatenation of three strings. */
  lemma ThreeParts(a: string, b: string, c: string)
    ensures (a + b + c)[..|a|] == a
    ensures (a + b + c)[|a|..|a| + |b|] == b
    ensures (a + b + c)[|a| + |b|..] == c
  {
  }

  /** Python `str(n)` for a natural number. */
  function NatToString(n: nat): (r: string)
    ensures r != []
    ensures forall i :: 0 <= i < |r| ==> '0' <= r[i] <= '9'
  {
    if n < 10 then [Digit(n)] else NatToString(n / 10) + [Digit(n % 10)]
  }

  function Digit(d: nat): (c: char)
    requires d < 10
    ensures '0' <= c <= '9'
  {
    "0123456789"[d]
  }
}
