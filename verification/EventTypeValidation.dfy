/** endpoint-service/internal/validation/validation.go: the event types of a subscription, trimmed, checked and with
    repeats dropped. */
module EventTypeValidation {
  import opened Basics

  /** unicode.IsSpace. */
  predicate IsSpace(c: char) {
    || c == ' ' || 0x09 as char <= c <= 0x0D as char
    || c == 0x85 as char || c == 0xA0 as char || c == 0x1680 as char || 0x2000 as char <= c <= 0x200A as char
    || c == 0x2028 as char || c == 0x2029 as char || c == 0x202F as char || c == 0x205F as char || c == 0x3000 as char
  }

  /** Where the spaces from `i` on end. */
  function LeftEdge(s: string, i: nat): (edge: nat)
    requires i <= |s|
    ensures i <= edge <= |s|
    decreases |s| - i
  {
    if i < |s| && IsSpace(s[i]) then LeftEdge(s, i + 1) else i
  }

  /** Where the spaces up to `j` begin, but not before `left`. */
  function RightEdge(s: string, left: nat, j: nat): (edge: nat)
    requires left <= j <= |s|
    ensures left <= edge <= j
  {
    if j > left && IsSpace(s[j - 1]) then RightEdge(s, left, j - 1) else j
  }

  function TrimSpace(s: string): string {
    var left := LeftEdge(s, 0);
    s[left..RightEdge(s, left, |s|)]
  }

  predicate IsAlphanumeric(c: char) {
    'a' <= c <= 'z' || 'A' <= c <= 'Z' || '0' <= c <= '9'
  }

  predicate IsPunctuation(c: char) {
    c == '.' || c == '_' || c == ':' || c == '-'
  }

  /** ^[a-zA-Z0-9][a-zA-Z0-9._:-]{0,254}$ */
  predicate MatchesPattern(s: string) {
    && 1 <= |s| <= 255
    && IsAlphanumeric(s[0])
    && forall i :: 1 <= i < |s| ==> IsAlphanumeric(s[i]) || IsPunctuation(s[i])
  }

  /** The white space that trimming knows, by code point. */
  lemma SpacesExactly(c: char)
    ensures IsSpace(c) <==>
            c as int in {9, 10, 11, 12, 13, 32, 133, 160, 5760, 8192, 8193, 8194, 8195, 8196, 8197, 8198, 8199, 8200, 8201, 8202,
                         8232, 8233, 8239, 8287, 12288}
  {
  }

  /** One letter or digit, then up to 254 letters, digits, dots, underscores, colons and hyphens. */
  ghost predicate IsName(first: char, rest: string) {
    && ('a' <= first <= 'z' || 'A' <= first <= 'Z' || '0' <= first <= '9')
    && |rest| <= 254
    && forall c :: c in rest ==> 'a' <= c <= 'z' || 'A' <= c <= 'Z' || '0' <= c <= '9' || c in {'.', '_', ':', '-'}
  }

  /** The pattern matches exactly these. */
  lemma MatchesExactly(s: string)
    ensures MatchesPattern(s) <==> s != "" && IsName(s[0], s[1..])
  {
    if s != "" && IsName(s[0], s[1..]) {
      forall i | 1 <= i < |s|
        ensures IsAlphanumeric(s[i]) || IsPunctuation(s[i])
      {
        assert s[i] == s[1..][i - 1] && s[i] in s[1..];
      }
    }
  }

  datatype ValidationError = NoEventTypes | InvalidEventType(raw: string)

  function Trimmed(types: seq<string>): (trimmed: seq<string>)
    ensures |trimmed| == |types|
  {
    if types == [] then [] else Trimmed(types[..|types| - 1]) + [TrimSpace(types[|types| - 1])]
  }

  /** The list with every repeat dropped. */
  function FirstOccurrences(s: seq<string>): seq<string> {
    if s == [] then []
    else
      var front := FirstOccurrences(s[..|s| - 1]);
      if s[|s| - 1] in s[..|s| - 1] then front else front + [s[|s| - 1]]
  }

  /** The error names the first type that is not valid. */
  ghost predicate IsFirstInvalid(types: seq<string>, e: ValidationError) {
    exists i :: 0 <= i < |types| && e == InvalidEventType(types[i]) && !MatchesPattern(Trimmed(types)[i])
                && forall k :: 0 <= k < i ==> MatchesPattern(Trimmed(types)[k])
  }

  method EventTypes(types: seq<string>) returns (r: Result<seq<string>, ValidationError>)
    ensures r == Err(NoEventTypes) <==> types == []
    ensures r.Ok? <==> types != [] && forall k :: 0 <= k < |types| ==> MatchesPattern(Trimmed(types)[k])
    ensures r.Ok? ==> r.value == FirstOccurrences(Trimmed(types))
    ensures r.Err? && types != [] ==> IsFirstInvalid(types, r.error)
  {
    if |types| == 0 {
      return Err(NoEventTypes);
    }
    var seen: set<string> := {};
    var out: seq<string> := [];
    ghost var all := Trimmed(types);
    for i := 0 to |types|
      invariant forall k :: 0 <= k < i ==> MatchesPattern(all[k])
      invariant out == FirstOccurrences(all[..i])
      invariant forall v :: v in seen <==> v in all[..i]
    {
      var v := TrimSpace(types[i]);
      TrimmedAt(types, i);
      if !MatchesPattern(v) {
        return Err(InvalidEventType(types[i]));
      }
      OneMore(all, i);
      if v in seen {
        continue;
      }
      seen := seen + {v};
      out := out + [v];
    }
    assert all[..|types|] == all;
    return Ok(out);
  }

  lemma {:induction false} TrimmedAt(types: seq<string>, i: nat)
    requires i < |types|
    ensures Trimmed(types)[i] == TrimSpace(types[i])
  {
    if i < |types| - 1 {
      TrimmedAt(types[..|types| - 1], i);
    }
  }

  lemma OneMore(s: seq<string>, i: nat)
    requires i < |s|
    ensures FirstOccurrences(s[..i + 1]) == if s[i] in s[..i] then FirstOccurrences(s[..i]) else FirstOccurrences(s[..i]) + [s[i]]
    ensures forall v :: v in s[..i + 1] <==> v in s[..i] || v == s[i]
  {
    assert s[..i + 1][..i] == s[..i];
    assert s[..i + 1] == s[..i] + [s[i]];
  }

  /** Where a value first stands in a list. */
  function FirstIndex(s: seq<string>, v: string): nat
    requires v in s
  {
    if s[0] == v then 0 else 1 + FirstIndex(s[1..], v)
  }

  lemma {:induction false} FirstIndexInFront(s: seq<string>, last: string, v: string)
    requires v in s
    ensures FirstIndex(s + [last], v) == FirstIndex(s, v) < |s|
  {
    if s[0] != v {
      assert (s + [last])[1..] == s[1..] + [last];
      FirstIndexInFront(s[1..], last, v);
    }
  }

  lemma {:induction false} FirstIndexOfNew(s: seq<string>, v: string)
    requires v !in s
    ensures FirstIndex(s + [v], v) == |s|
  {
    if s != [] {
      assert (s + [v])[1..] == s[1..] + [v];
      FirstIndexOfNew(s[1..], v);
    }
  }

  /** Dropping repeats leaves a duplicate-free list of the same values in the order of their first occurrence; so the
      unguarded subscription inserts never collide. */
  lemma {:induction false} RepeatsAreDropped(s: seq<string>)
    ensures Distinct(FirstOccurrences(s)) && Elements(FirstOccurrences(s)) == Elements(s)
    ensures forall v :: v in FirstOccurrences(s) <==> v in s
    ensures forall i, j :: 0 <= i < j < |FirstOccurrences(s)| ==>
              FirstIndex(s, FirstOccurrences(s)[i]) < FirstIndex(s, FirstOccurrences(s)[j])
  {
    if s != [] {
      var front, last := s[..|s| - 1], s[|s| - 1];
      RepeatsAreDropped(front);
      assert s == front + [last];
      var kept, out := FirstOccurrences(front), FirstOccurrences(s);
      forall i, j | 0 <= i < j < |out|
        ensures FirstIndex(s, out[i]) < FirstIndex(s, out[j])
      {
        FirstIndexInFront(front, last, kept[i]);
        if j < |kept| {
          FirstIndexInFront(front, last, kept[j]);
        } else {
          FirstIndexOfNew(front, last);
        }
      }
    }
  }

  lemma {:induction false} LeftEdgeStops(s: string, i: nat)
    requires i <= |s|
    ensures forall k :: i <= k < LeftEdge(s, i) ==> IsSpace(s[k])
    ensures LeftEdge(s, i) < |s| ==> !IsSpace(s[LeftEdge(s, i)])
    decreases |s| - i
  {
    if i < |s| && IsSpace(s[i]) {
      LeftEdgeStops(s, i + 1);
    }
  }

  lemma {:induction false} RightEdgeStops(s: string, left: nat, j: nat)
    requires left <= j <= |s|
    ensures forall k :: RightEdge(s, left, j) <= k < j ==> IsSpace(s[k])
    ensures left < RightEdge(s, left, j) ==> !IsSpace(s[RightEdge(s, left, j) - 1])
  {
    if j > left && IsSpace(s[j - 1]) {
      RightEdgeStops(s, left, j - 1);
    }
  }

  /** Trimming cuts the spaces at both ends and nothing else. */
  lemma TrimSpaceCutsTheEnds(s: string) returns (left: nat, right: nat)
    ensures left <= right <= |s| && TrimSpace(s) == s[left..right]
    ensures forall i :: 0 <= i < left || right <= i < |s| ==> IsSpace(s[i])
    ensures left < right ==> !IsSpace(s[left]) && !IsSpace(s[right - 1])
  {
    left := LeftEdge(s, 0);
    right := RightEdge(s, left, |s|);
    LeftEdgeStops(s, 0);
    RightEdgeStops(s, left, |s|);
  }
}
