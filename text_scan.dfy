/** String scanning shared by the two agents: Python's whitespace class,
    `str.strip`, `str.join`, substring search, and the two regular-expression
    searches that `extract_json_from_response` performs (the fenced block
    ```` ```(?:json)?\s*([\s\S]*?)``` ```` and the brace span `\{[\s\S]*\}`),
    written out as the spans Python's `re.search` returns. */
module TextScan {
  import opened Wrappers

  /** Python's `str.isspace`, which is also what `\s` matches in a str
      pattern: the ASCII controls 9-13 and 28-31, the space, and the Unicode
      separators. */
  predicate IsSpace(c: char) {
    || ('\t' <= c <= '\r')
    || ('\U{1C}' <= c <= '\U{1F}')
    || c == ' ' || c == '\U{85}' || c == '\U{A0}' || c == '\U{1680}'
    || ('\U{2000}' <= c <= '\U{200A}')
    || c == '\U{2028}' || c == '\U{2029}' || c == '\U{202F}' || c == '\U{205F}'
    || c == '\U{3000}'
  }

  /** The 29 characters for which Python's `str.isspace` holds, one by one. */
  const PythonWhitespace: set<char> := {
    '\t', '\n', '\U{B}', '\U{C}', '\r', '\U{1C}', '\U{1D}', '\U{1E}', '\U{1F}', ' ',
    '\U{85}', '\U{A0}', '\U{1680}',
    '\U{2000}', '\U{2001}', '\U{2002}', '\U{2003}', '\U{2004}', '\U{2005}',
    '\U{2006}', '\U{2007}', '\U{2008}', '\U{2009}', '\U{200A}',
    '\U{2028}', '\U{2029}', '\U{202F}', '\U{205F}', '\U{3000}'}

  /** The ranges `IsSpace` tests cover exactly the listed characters. */
  lemma IsSpaceIsPythonWhitespace(c: char)
    ensures IsSpace(c) <==> c in PythonWhitespace
  {
  }

  /** `s` with its leading whitespace removed. */
  function TrimStart(s: string): (r: string)
    ensures |r| <= |s| && r == s[|s| - |r|..]
    ensures forall i :: 0 <= i < |s| - |r| ==> IsSpace(s[i])
    ensures r != [] ==> !IsSpace(r[0])
  {
    if s != [] && IsSpace(s[0]) then TrimStart(s[1..]) else s
  }

  /** `s` with its trailing whitespace removed. */
  function TrimEnd(s: string): (r: string)
    ensures |r| <= |s| && r == s[..|r|]
    ensures forall i :: |r| <= i < |s| ==> IsSpace(s[i])
    ensures r != [] ==> !IsSpace(r[|r| - 1])
  {
    if s != [] && IsSpace(s[|s| - 1]) then TrimEnd(s[..|s| - 1]) else s
  }

  /** Python's `s.strip()`: the stretch of `s` left once its leading and
      its trailing whitespace are cut off (lemma `StripEndsNonSpace`: it
      starts and ends with a non-whitespace character). */
  function Strip(s: string): (r: string)
    ensures var k := |s| - |TrimStart(s)|;
      && k + |r| <= |s| && r == s[k..k + |r|]
      && (forall i :: 0 <= i < k ==> IsSpace(s[i]))
      && (forall i :: k + |r| <= i < |s| ==> IsSpace(s[i]))
  {
    var t := TrimStart(s);
    var r := TrimEnd(t);
    assert r == s[|s| - |t|..][..|r|];
    r
  }

  /** What `s.strip()` keeps starts and ends with a non-whitespace
      character, so everything cut off is all the whitespace at either end. */
  lemma StripEndsNonSpace(s: string)
    ensures var r := Strip(s);
      r != [] ==> !IsSpace(r[0]) && !IsSpace(r[|r| - 1])
  {
    var t := TrimStart(s);
    var r := Strip(s);
    assert r == TrimEnd(t);
    assert r != [] ==> r[0] == t[0];
  }

  /** `s.strip()` is empty exactly when `s` is all whitespace. */
  lemma StripEmptyIffBlank(s: string)
    ensures Strip(s) == [] <==> forall i :: 0 <= i < |s| ==> IsSpace(s[i])
  {
    var r := Strip(s);
    var k := |s| - |TrimStart(s)|;
    if r != [] {
      StripEndsNonSpace(s);
      assert s[k] == r[0];
    }
  }

  /** Python's `sep.join(parts)`. */
  function Join(parts: seq<string>, sep: string): (r: string)
    ensures |parts| == 1 ==> r == parts[0]
    ensures parts != [] ==> |parts[0]| <= |r| && r[..|parts[0]|] == parts[0]
    ensures sep != [] ==> (r == [] <==> parts == [] || parts == [[]])
  {
    if parts == [] then ""
    else if |parts| == 1 then parts[0]
    else parts[0] + sep + Join(parts[1..], sep)
  }

  /** Joining one more part appends the separator and that part. */
  lemma {:induction false} JoinSnoc(parts: seq<string>, p: string, sep: string)
    requires parts != []
    ensures Join(parts + [p], sep) == Join(parts, sep) + sep + p
  {
    if |parts| > 1 {
      assert (parts + [p])[1..] == parts[1..] + [p];
      JoinSnoc(parts[1..], p, sep);
    } else {
      assert (parts + [p])[1..] == [p];
    }
  }

  predicate OccursAt(s: string, pat: string, i: int) {
    0 <= i && i + |pat| <= |s| && s[i..i + |pat|] == pat
  }

  /** The first position at or after `from` where `pat` occurs, as
      `str.find(pat, from)` would report it. */
  function FindFrom(s: string, pat: string, from: nat): (r: Option<nat>)
    ensures r.Some? ==> from <= r.value && OccursAt(s, pat, r.value)
    ensures r.Some? ==> forall i :: from <= i < r.value ==> !OccursAt(s, pat, i)
    ensures r.None? ==> forall i :: from <= i ==> !OccursAt(s, pat, i)
    decreases |s| - from
  {
    if from + |pat| > |s| then None
    else if s[from..from + |pat|] == pat then Some(from)
    else FindFrom(s, pat, from + 1)
  }

  /** `FindFrom` reports the first occurrence at or after `from`. */
  lemma FindFromFirst(s: string, pat: string, from: nat, k: nat)
    requires from <= k && OccursAt(s, pat, k)
    requires forall i :: from <= i < k ==> !OccursAt(s, pat, i)
    ensures FindFrom(s, pat, from) == Some(k)
  {
  }

  /** The last position below `upto` holding `c`, as `str.rfind(c, 0, upto)`. */
  function FindLast(s: string, c: char, upto: nat): (r: Option<nat>)
    requires upto <= |s|
    ensures r.Some? ==> r.value < upto && s[r.value] == c
    ensures r.Some? ==> forall i :: r.value < i < upto ==> s[i] != c
    ensures r.None? ==> forall i :: 0 <= i < upto ==> s[i] != c
  {
    if upto == 0 then None
    else if s[upto - 1] == c then Some(upto - 1)
    else FindLast(s, c, upto - 1)
  }

  /** The first position at or after `i` that is not whitespace (or `|s|`). */
  function SkipSpaces(s: string, i: nat): (j: nat)
    requires i <= |s|
    ensures i <= j <= |s|
    ensures forall p :: i <= p < j ==> IsSpace(s[p])
    ensures j < |s| ==> !IsSpace(s[j])
    decreases |s| - i
  {
    if i < |s| && IsSpace(s[i]) then SkipSpaces(s, i + 1) else i
  }

  /** `SkipSpaces` stops at the first non-whitespace position. */
  lemma SkipSpacesTo(s: string, i: nat, j: nat)
    requires i <= j <= |s|
    requires forall p :: i <= p < j ==> IsSpace(s[p])
    requires j < |s| ==> !IsSpace(s[j])
    ensures SkipSpaces(s, i) == j
  {
  }

  const Fence: string := "```"
  const JsonTag: string := "json"

  /** Where the optional `json` tag after an opening fence at `open` ends. */
  function TagEnd(s: string, open: nat): nat {
    open + |Fence| + if OccursAt(s, JsonTag, open + |Fence|) then |JsonTag| else 0
  }

  /** A fenced-block match: the opening fence at `open`, the captured group
      `s[lo..hi]`, the closing fence at `hi`. */
  datatype FenceMatch = FenceMatch(open: nat, lo: nat, hi: nat)

  /** Whether `re` may match the fence pattern with the opening fence at `i`
      and the group `s[j..k]`, under any choice of its optional tag, its
      whitespace run and its lazy body (the priorities aside). */
  ghost predicate FencePatternMatches(s: string, i: nat, j: nat, k: nat) {
    && OccursAt(s, Fence, i)
    && (|| (OccursAt(s, JsonTag, i + |Fence|) && i + |Fence| + |JsonTag| <= j)
        || i + |Fence| <= j)
    && j <= k
    && OccursAt(s, Fence, k)
  }

  /** `re.search(r'```(?:json)?\s*([\s\S]*?)```', s)`: the leftmost opening
      fence that has a match, the tag taken when present, the whitespace run
      taken whole, and the group ending at the nearest closing fence. When
      no match is reported, no two fences occur with room for the pattern
      between them. */
  function FindFence(s: string): (r: Option<FenceMatch>)
    ensures r.Some? ==>
      var m := r.value;
      && OccursAt(s, Fence, m.open)
      && (forall i :: 0 <= i < m.open ==> !OccursAt(s, Fence, i))
      && TagEnd(s, m.open) <= m.lo <= m.hi
      && OccursAt(s, Fence, m.hi)
      && (forall p :: TagEnd(s, m.open) <= p < m.lo ==> IsSpace(s[p]))
      && !IsSpace(s[m.lo])
      && (forall p :: m.lo <= p < m.hi ==> !OccursAt(s, Fence, p))
    ensures r.None? <==> forall i: nat, j: nat, k: nat :: !FencePatternMatches(s, i, j, k)
  {
    match FindFrom(s, Fence, 0)
    case None => None
    case Some(open) =>
      var lo := SkipSpaces(s, TagEnd(s, open));
      match FindFrom(s, Fence, lo)
      case None =>
        NoLaterFence(s, open, lo);
        None
      case Some(hi) =>
        assert FencePatternMatches(s, open, open + |Fence|, hi);
        assert s[hi] == '`';
        Some(FenceMatch(open, lo, hi))
  }

  /** When the first opening fence finds no closing fence after its tag and
      whitespace, no fence pair exists at all: any later opening fence
      would share a closing fence with the first. */
  lemma NoLaterFence(s: string, open: nat, lo: nat)
    requires OccursAt(s, Fence, open)
    requires forall i :: 0 <= i < open ==> !OccursAt(s, Fence, i)
    requires lo == SkipSpaces(s, TagEnd(s, open))
    requires forall p :: lo <= p ==> !OccursAt(s, Fence, p)
    ensures forall i: nat, j: nat, k: nat :: !FencePatternMatches(s, i, j, k)
  {
    FencesSkipTagAndSpaces(s, open);
  }

  /** The optional tag and the whitespace after an opening fence hold no
      backtick, so every fence that starts after the opening one starts at
      or after the group's first character. */
  lemma FencesSkipTagAndSpaces(s: string, open: nat)
    requires OccursAt(s, Fence, open)
    ensures forall k :: open + |Fence| <= k && OccursAt(s, Fence, k) ==>
      SkipSpaces(s, TagEnd(s, open)) <= k
  {
    var t := open + |Fence|;
    forall q | t <= q < TagEnd(s, open) ensures s[q] != '`' {
      assert s[q] == s[t..t + |JsonTag|][q - t];
    }
    forall k | t <= k && OccursAt(s, Fence, k) ensures s[k] == '`' {
      assert s[k] == s[k..k + |Fence|][0];
    }
  }

  /** The captured group of the fenced-block search, when it matches. */
  function FenceInterior(s: string): (r: Option<string>)
    ensures r.Some? <==> FindFence(s).Some?
    ensures r.Some? ==> var m := FindFence(s).value; r.value == s[m.lo..m.hi]
    ensures r.Some? ==> forall p :: 0 <= p ==> !OccursAt(r.value, Fence, p)
  {
    match FindFence(s)
    case None => None
    case Some(m) =>
      NoFenceInside(s, m.lo, m.hi);
      Some(s[m.lo..m.hi])
  }

  lemma NoFenceInside(s: string, lo: nat, hi: nat)
    requires lo <= hi <= |s|
    requires forall p :: lo <= p < hi ==> !OccursAt(s, Fence, p)
    ensures forall p :: 0 <= p ==> !OccursAt(s[lo..hi], Fence, p)
  {
    var sub := s[lo..hi];
    forall p | 0 <= p ensures !OccursAt(sub, Fence, p) {
      if p + |Fence| <= |sub| {
        var a, b := sub[p..p + |Fence|], s[lo + p..lo + p + |Fence|];
        forall k | 0 <= k < |Fence| ensures a[k] == b[k] {
          assert a[k] == sub[p + k];
        }
        assert a == b;
        assert !OccursAt(s, Fence, lo + p);
      }
    }
  }

  /** A span `s[lo..hi]` of the text. */
  datatype Span = Span(lo: nat, hi: nat)

  /** `re.search(r'\{[\s\S]*\}', s)`: from the first `{` to the last `}`
      after it; no match exactly when no `}` follows any `{`. */
  function FindBraceSpan(s: string): (r: Option<Span>)
    ensures r.Some? ==>
      var m := r.value;
      && m.lo < m.hi <= |s| && s[m.lo] == '{' && s[m.hi - 1] == '}'
      && (forall i :: 0 <= i < m.lo ==> s[i] != '{')
      && (forall i :: m.hi <= i < |s| ==> s[i] != '}')
    ensures r.None? <==> forall i, k :: 0 <= i < k < |s| && s[i] == '{' ==> s[k] != '}'
  {
    match FindFrom(s, "{", 0)
    case None =>
      assert forall i :: 0 <= i < |s| ==> s[i] != '{' by {
        forall i | 0 <= i < |s| ensures s[i] != '{' {
          assert !OccursAt(s, "{", i);
          assert s[i..i + 1] == [s[i]];
        }
      }
      None
    case Some(lo) =>
      assert s[lo] == s[lo..lo + 1][0] == '{';
      assert forall i :: 0 <= i < lo ==> s[i] != '{' by {
        forall i | 0 <= i < lo ensures s[i] != '{' {
          assert !OccursAt(s, "{", i);
          assert s[i..i + 1] == [s[i]];
        }
      }
      match FindLast(s, '}', |s|)
      case None => None
      case Some(last) =>
        if lo < last then Some(Span(lo, last + 1)) else None
  }

  /** The matched text of the brace search, when it matches. */
  function BraceSpan(s: string): (r: Option<string>)
    ensures r.Some? <==> FindBraceSpan(s).Some?
    ensures r.Some? ==> var m := FindBraceSpan(s).value; r.value == s[m.lo..m.hi]
    ensures r.Some? ==> r.value[0] == '{' && r.value[|r.value| - 1] == '}'
  {
    match FindBraceSpan(s)
    case None => None
    case Some(m) => Some(s[m.lo..m.hi])
  }
}
