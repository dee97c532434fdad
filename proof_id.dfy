/** The proof-ID pattern of the Opacity examples, `Proof ID:\s*(\S+)\s*$`,
    searched for with Python's `re.search`: the worker matches the marker
    ignoring case, the agent matches it exactly.

    A match is a position where the marker occurs and after which the text
    is optional whitespace, a non-empty token without whitespace, and optional
    whitespace up to the end (`\s*` is greedy, so the token must reach the
    trailing whitespace). The search returns the token of the leftmost such
    position; there is never more than one. */
module ProofId {
  import opened Common

  const Marker := "Proof ID:"

  /** Python's `\s` on `str` patterns: the characters `str.isspace()` accepts. */
  predicate IsSpace(c: char)
  {
    || c == ' ' || '\t' <= c <= '\r' || '\U{1C}' <= c <= '\U{1F}'
    || c == '\U{85}' || c == '\U{A0}' || c == '\U{1680}' || '\U{2000}' <= c <= '\U{200A}'
    || c == '\U{2028}' || c == '\U{2029}' || c == '\U{202F}' || c == '\U{205F}' || c == '\U{3000}'
  }

  predicate AllSpace(s: string)
  {
    forall k :: 0 <= k < |s| ==> IsSpace(s[k])
  }

  predicate NoSpace(s: string)
  {
    forall k :: 0 <= k < |s| ==> !IsSpace(s[k])
  }

  /** The case folding `re.IGNORECASE` applies when comparing a character with
      one of the marker's characters: ASCII letters fold to lower case, and
      'İ' (U+0130) and 'ı' (U+0131) fold to 'i'. */
  function Fold(c: char): char
  {
    if 'A' <= c <= 'Z' then (c as int + 32) as char
    else if c == '\U{130}' || c == '\U{131}' then 'i'
    else c
  }

  predicate CharMatches(c: char, p: char, ignoreCase: bool)
  {
    if ignoreCase then Fold(c) == Fold(p) else c == p
  }

  /** The marker "Proof ID:" occurs at position `i`. */
  predicate MarkerAt(text: string, i: int, ignoreCase: bool)
  {
    0 <= i && i + |Marker| <= |text|
    && forall k :: 0 <= k < |Marker| ==> CharMatches(text[i + k], Marker[k], ignoreCase)
  }

  /** The length of the leading run of whitespace. */
  function SpanSpace(s: string): (n: nat)
    ensures n <= |s|
    ensures forall k :: 0 <= k < n ==> IsSpace(s[k])
    ensures n < |s| ==> !IsSpace(s[n])
  {
    if s == [] || !IsSpace(s[0]) then 0 else 1 + SpanSpace(s[1..])
  }

  /** The length of the leading run of non-whitespace. */
  function SpanNonSpace(s: string): (n: nat)
    ensures n <= |s|
    ensures forall k :: 0 <= k < n ==> !IsSpace(s[k])
    ensures n < |s| ==> IsSpace(s[n])
  {
    if s == [] || IsSpace(s[0]) then 0 else 1 + SpanNonSpace(s[1..])
  }

  /** `\s*(\S+)\s*$` on the text after a marker: the captured token, if the
      text matches. */
  function Tail(r: string): Option<string>
  {
    var a := SpanSpace(r);
    var rest := r[a..];
    var b := SpanNonSpace(rest);
    if b > 0 && AllSpace(rest[b..]) then Some(rest[..b]) else None
  }

  /** A match starts at `i`. */
  predicate MatchAt(text: string, i: int, ignoreCase: bool)
  {
    MarkerAt(text, i, ignoreCase) && Tail(text[i + |Marker|..]).Some?
  }

  /** The search from position `i` onwards. */
  function SearchFrom(text: string, i: nat, ignoreCase: bool): Option<string>
    decreases |text| - i
  {
    if i + |Marker| > |text| then None
    else if MatchAt(text, i, ignoreCase) then Tail(text[i + |Marker|..])
    else SearchFrom(text, i + 1, ignoreCase)
  }

  /** `re.search(r'Proof ID:\s*(\S+)\s*$', text[, re.IGNORECASE])`, group 1. */
  function ExtractProofId(text: string, ignoreCase: bool): Option<string>
  {
    SearchFrom(text, 0, ignoreCase)
  }

  /** The text after a marker is whitespace, the token `t`, and whitespace. */
  predicate TokenLayout(r: string, t: string)
  {
    && t != [] && NoSpace(t)
    && exists a :: 0 <= a && a + |t| <= |r| && AllSpace(r[..a]) && r[a..a + |t|] == t && AllSpace(r[a + |t|..])
  }

  // ---------------------------------------------------------------------------
  // Properties of the pattern

  /** `Tail` captures exactly the token of a whitespace/token/whitespace text. */
  lemma TailIff(r: string, t: string)
    ensures Tail(r) == Some(t) <==> TokenLayout(r, t)
  {
    if Tail(r) == Some(t) {
      TailHasLayout(r);
    }
    if TokenLayout(r, t) {
      var a :| 0 <= a && a + |t| <= |r| && AllSpace(r[..a]) && r[a..a + |t|] == t && AllSpace(r[a + |t|..]);
      LayoutGivesTail(r, t, a);
    }
  }

  lemma TailHasLayout(r: string)
    requires Tail(r).Some?
    ensures TokenLayout(r, Tail(r).value)
  {
    var t := Tail(r).value;
    var a := SpanSpace(r);
    var rest := r[a..];
    var b := SpanNonSpace(rest);
    assert rest[..b] == r[a..a + b];
    assert rest[b..] == r[a + b..];
    assert AllSpace(r[..a]) && r[a..a + |t|] == t && AllSpace(r[a + |t|..]);
  }

  lemma LayoutGivesTail(r: string, t: string, a: int)
    requires t != [] && NoSpace(t)
    requires 0 <= a && a + |t| <= |r| && AllSpace(r[..a]) && r[a..a + |t|] == t && AllSpace(r[a + |t|..])
    ensures Tail(r) == Some(t)
  {
    assert r[a] == r[a..a + |t|][0];
    assert forall k :: 0 <= k < a ==> r[..a][k] == r[k];
    SpanSpaceIs(r, a);
    var rest := r[a..];
    assert forall k :: 0 <= k < |t| ==> rest[k] == r[a..a + |t|][k];
    assert forall k :: |t| <= k < |rest| ==> rest[k] == r[a + |t|..][k - |t|];
    SpanNonSpaceIs(rest, |t|);
    assert rest[|t|..] == r[a + |t|..];
    assert rest[..|t|] == t;
  }

  lemma SpanSpaceIs(s: string, n: nat)
    requires n <= |s| && (forall k :: 0 <= k < n ==> IsSpace(s[k])) && (n < |s| ==> !IsSpace(s[n]))
    ensures SpanSpace(s) == n
  {
  }

  lemma SpanNonSpaceIs(s: string, n: nat)
    requires n <= |s| && (forall k :: 0 <= k < n ==> !IsSpace(s[k])) && (n < |s| ==> IsSpace(s[n]))
    ensures SpanNonSpace(s) == n
  {
  }

  /** Two occurrences of the marker never overlap. */
  lemma MarkersDoNotOverlap(text: string, i: int, j: int, ignoreCase: bool)
    requires MarkerAt(text, i, ignoreCase) && MarkerAt(text, j, ignoreCase)
    requires i < j
    ensures j >= i + |Marker|
  {
    OnlyTheFirstMarkerCharIsP(text[j], j - i, ignoreCase);
  }

  /** Only the marker's first character matches what its first character
      matches. */
  lemma OnlyTheFirstMarkerCharIsP(c: char, k: int, ignoreCase: bool)
    requires CharMatches(c, Marker[0], ignoreCase)
    ensures 0 <= k < |Marker| && CharMatches(c, Marker[k], ignoreCase) ==> k == 0
  {
  }

  /** A marker contains a space between two non-space characters. */
  lemma MarkerHasInnerSpace(text: string, j: int, ignoreCase: bool)
    requires MarkerAt(text, j, ignoreCase)
    ensures !IsSpace(text[j + 4]) && IsSpace(text[j + 5]) && !IsSpace(text[j + 6])
  {
    assert CharMatches(text[j + 4], Marker[4], ignoreCase);
    assert CharMatches(text[j + 5], Marker[5], ignoreCase);
    assert CharMatches(text[j + 6], Marker[6], ignoreCase);
  }

  /** A matching tail never contains a space between two non-spaces. */
  lemma TailHasNoInnerSpace(r: string, q: int)
    requires Tail(r).Some?
    requires 0 <= q && q + 2 < |r|
    requires !IsSpace(r[q]) && !IsSpace(r[q + 2])
    ensures !IsSpace(r[q + 1])
  {
    TailSpaces(r);
  }

  /** In a matching tail, a character is whitespace exactly when it lies
      outside the captured token. */
  lemma TailSpaces(r: string)
    requires Tail(r).Some?
    ensures var a := SpanSpace(r);
      var n := |Tail(r).value|;
      && a + n <= |r|
      && forall k :: 0 <= k < |r| ==> (IsSpace(r[k]) <==> k < a || a + n <= k)
  {
    var a := SpanSpace(r);
    var rest := r[a..];
    var b := SpanNonSpace(rest);
    forall k | 0 <= k < |r|
      ensures IsSpace(r[k]) <==> k < a || a + b <= k
    {
      if a <= k < a + b {
        assert rest[k - a] == r[k];
      } else if a + b <= k {
        assert rest[b..][k - a - b] == r[k];
      }
    }
  }

  /** At most one position starts a match: a later marker would lie inside the
      earlier match's tail, which has no space between two non-spaces. */
  lemma AtMostOneMatch(text: string, i: int, j: int, ignoreCase: bool)
    requires MatchAt(text, i, ignoreCase) && MatchAt(text, j, ignoreCase)
    ensures i == j
  {
    if i < j {
      MarkersDoNotOverlap(text, i, j, ignoreCase);
      MarkerHasInnerSpace(text, j, ignoreCase);
      var r := text[i + |Marker|..];
      var q := j + 4 - (i + |Marker|);
      TailHasNoInnerSpace(r, q);
    } else if j < i {
      AtMostOneMatch(text, j, i, ignoreCase);
    }
  }

  /** The search from `i` finds a match at or after `i` when there is one, and
      reports nothing otherwise. */
  lemma {:induction false} SearchFromFinds(text: string, i: nat, ignoreCase: bool)
    ensures SearchFrom(text, i, ignoreCase).None? <==> forall j :: i <= j ==> !MatchAt(text, j, ignoreCase)
    ensures SearchFrom(text, i, ignoreCase).Some? ==>
      exists j :: i <= j && MatchAt(text, j, ignoreCase) && SearchFrom(text, i, ignoreCase) == Tail(text[j + |Marker|..])
    decreases |text| - i
  {
    var found := SearchFrom(text, i, ignoreCase);
    if i + |Marker| > |text| {
      assert found.None?;
      forall j | i <= j
        ensures !MatchAt(text, j, ignoreCase)
      {
        assert !MarkerAt(text, j, ignoreCase);
      }
    } else if MatchAt(text, i, ignoreCase) {
      assert found == Tail(text[i + |Marker|..]);
    } else {
      assert found == SearchFrom(text, i + 1, ignoreCase);
      SearchFromFinds(text, i + 1, ignoreCase);
      if found.None? {
        forall j | i <= j
          ensures !MatchAt(text, j, ignoreCase)
        {
          if j > i {
            assert i + 1 <= j;
          }
        }
      } else {
        var j :| i + 1 <= j && MatchAt(text, j, ignoreCase) && found == Tail(text[j + |Marker|..]);
        assert i <= j;
      }
    }
  }

  /** The proof ID of a text is found exactly when some position starts a
      match, and it is then the token captured there, whichever match
      position is considered. */
  lemma ExtractProofIdFindsTheMatch(text: string, ignoreCase: bool)
    ensures ExtractProofId(text, ignoreCase).Some? <==> exists i :: MatchAt(text, i, ignoreCase)
    ensures forall i :: MatchAt(text, i, ignoreCase) ==> ExtractProofId(text, ignoreCase) == Tail(text[i + |Marker|..])
  {
    SearchFromFinds(text, 0, ignoreCase);
    forall i | MatchAt(text, i, ignoreCase)
      ensures ExtractProofId(text, ignoreCase) == Tail(text[i + |Marker|..])
    {
      var j :| 0 <= j && MatchAt(text, j, ignoreCase) && ExtractProofId(text, ignoreCase) == Tail(text[j + |Marker|..]);
      AtMostOneMatch(text, i, j, ignoreCase);
    }
  }

  /** The proof ID is `t` exactly when the text is some prefix, the marker,
      optional whitespace, the non-empty whitespace-free token `t`, and
      optional whitespace. */
  lemma ExtractProofIdIff(text: string, ignoreCase: bool, t: string)
    ensures ExtractProofId(text, ignoreCase) == Some(t) <==>
      exists i :: MarkerAt(text, i, ignoreCase) && TokenLayout(text[i + |Marker|..], t)
  {
    if ExtractProofId(text, ignoreCase) == Some(t) {
      FoundIdHasLayout(text, ignoreCase);
    }
    if exists i :: MarkerAt(text, i, ignoreCase) && TokenLayout(text[i + |Marker|..], t) {
      var i :| MarkerAt(text, i, ignoreCase) && TokenLayout(text[i + |Marker|..], t);
      LayoutIsFound(text, ignoreCase, i, t);
    }
  }

  lemma FoundIdHasLayout(text: string, ignoreCase: bool)
    requires ExtractProofId(text, ignoreCase).Some?
    ensures exists i :: MarkerAt(text, i, ignoreCase) && TokenLayout(text[i + |Marker|..], ExtractProofId(text, ignoreCase).value)
  {
    SearchFromFinds(text, 0, ignoreCase);
    var j :| 0 <= j && MatchAt(text, j, ignoreCase) && ExtractProofId(text, ignoreCase) == Tail(text[j + |Marker|..]);
    TailHasLayout(text[j + |Marker|..]);
  }

  lemma LayoutIsFound(text: string, ignoreCase: bool, i: int, t: string)
    requires MarkerAt(text, i, ignoreCase) && TokenLayout(text[i + |Marker|..], t)
    ensures ExtractProofId(text, ignoreCase) == Some(t)
  {
    var r := text[i + |Marker|..];
    var a :| 0 <= a && a + |t| <= |r| && AllSpace(r[..a]) && r[a..a + |t|] == t && AllSpace(r[a + |t|..]);
    LayoutGivesTail(r, t, a);
    assert MatchAt(text, i, ignoreCase);
    ExtractProofIdFindsTheMatch(text, ignoreCase);
  }

  /** Matching without ignoring case requires the marker exactly; ignoring
      case accepts every exact occurrence too. */
  lemma ExactMarkerIsCaseSensitive(text: string, i: int)
    ensures MarkerAt(text, i, false) <==> 0 <= i && i + |Marker| <= |text| && text[i..i + |Marker|] == Marker
    ensures MarkerAt(text, i, false) ==> MarkerAt(text, i, true)
  {
    if 0 <= i && i + |Marker| <= |text| && text[i..i + |Marker|] == Marker {
      forall k | 0 <= k < |Marker| ensures text[i + k] == Marker[k] {
        assert text[i..i + |Marker|][k] == text[i + k];
      }
    }
  }

  /** "proof id: " followed by a token: the worker, which ignores case, finds
      the token. */
  lemma LowerCaseMarkerMatchesIgnoringCase(t: string)
    requires t != [] && NoSpace(t)
    ensures ExtractProofId("proof id: " + t, true) == Some(t)
  {
    var text := "proof id: " + t;
    assert MarkerAt(text, 0, true);
    var r := text[|Marker|..];
    assert r == " " + t;
    assert r[..1] == " " && r[1..1 + |t|] == t && r[1 + |t|..] == [];
    LayoutIsFound(text, true, 0, t);
  }

  /** The agent, which does not ignore case, finds nothing in "proof id: "
      followed by a token. */
  lemma LowerCaseMarkerMissedExactly(t: string)
    requires NoSpace(t)
    ensures ExtractProofId("proof id: " + t, false) == None
  {
    var text := "proof id: " + t;
    forall i | MarkerAt(text, i, false) ensures false {
      LowerCaseTextHasNoExactMarker(t, i);
    }
    SearchFromFinds(text, 0, false);
  }

  lemma LowerCaseTextHasNoExactMarker(t: string, i: int)
    requires NoSpace(t)
    ensures !MarkerAt("proof id: " + t, i, false)
  {
    var text := "proof id: " + t;
    if 0 <= i < 10 {
      assert text[i] == "proof id: "[i];
      assert text[i] != 'P';
      assert MarkerAt(text, i, false) ==> CharMatches(text[i + 0], Marker[0], false);
    } else if 10 <= i && i + 5 < |text| {
      assert text[i + 5] == t[i + 5 - 10];
      assert MarkerAt(text, i, false) ==> CharMatches(text[i + 5], Marker[5], false);
    }
  }
}
