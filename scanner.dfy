/** The two global regular expressions of parseValue, as span finders, and
    String.prototype.replace with them: /{{(.*?)}}/g finds interpolations
    and /((#.+?)\((.*?)\)).*?/g finds function-helper calls. A match starts
    at the leftmost position where one exists, its lazy parts take as few
    characters as let the rest match, `.` matches anything but a line
    terminator, and the next search starts where the match ended. */
module Scanner {
  import opened Base
  import opened JsText

  datatype Pattern = Braces | Call

  /** The text s[start..end] of a match. */
  datatype Span = Span(start: nat, end: nat)

  predicate NoLineBreak(s: string, a: nat, b: nat)
    requires a <= b <= |s|
  {
    forall k :: a <= k < b ==> !IsLineTerminator(s[k])
  }

  // ---------------------------------------------------------------------
  // One match

  /** `.*?}}` from position from: the first "}}" on the same line. */
  function CloseBraces(s: string, from: nat): (r: Option<nat>)
    requires from <= |s|
    ensures r.Some? ==> from <= r.value && r.value + 2 <= |s|
    decreases |s| - from
  {
    if from + 2 > |s| then None
    else if s[from] == '}' && s[from + 1] == '}' then Some(from)
    else if IsLineTerminator(s[from]) then None
    else CloseBraces(s, from + 1)
  }

  /** `.*?\)` from position from: the first ")" on the same line. */
  function CloseParen(s: string, from: nat): (r: Option<nat>)
    requires from <= |s|
    ensures r.Some? ==> from <= r.value < |s|
    decreases |s| - from
  {
    if from == |s| then None
    else if s[from] == ')' then Some(from)
    else if IsLineTerminator(s[from]) then None
    else CloseParen(s, from + 1)
  }

  /** `#.+?\(.*?\)` at i, the name s[i..p] being tried: the lazy name takes
      one more character until an opening parenthesis that has a closing
      one after it on the same line follows it. The result is the position
      of that opening parenthesis and of the closing one. */
  function CallFrom(s: string, i: nat, p: nat): (r: Option<(nat, nat)>)
    requires i + 2 <= p <= |s|
    ensures r.Some? ==> p <= r.value.0 < r.value.1 < |s|
    decreases |s| - p
  {
    if p == |s| then None
    else if s[p] == '(' && CloseParen(s, p + 1).Some? then Some((p, CloseParen(s, p + 1).value))
    else if IsLineTerminator(s[p]) then None
    else CallFrom(s, i, p + 1)
  }

  /** A function-helper call starting at i: the positions of its parentheses. */
  function CallAt(s: string, i: nat): (r: Option<(nat, nat)>)
    ensures r.Some? ==> i + 2 <= r.value.0 < r.value.1 < |s|
  {
    if i + 2 <= |s| && s[i] == '#' && !IsLineTerminator(s[i + 1]) then CallFrom(s, i, i + 2) else None
  }

  /** Where the match of pat that starts at i ends, if one starts there. */
  function MatchEnd(pat: Pattern, s: string, i: nat): (r: Option<nat>)
    ensures r.Some? ==> i < r.value <= |s|
    ensures r.Some? && pat == Braces ==> i + 4 <= r.value
    ensures r.Some? && pat == Call ==> CallAt(s, i).Some?
  {
    match pat
    case Braces =>
      if i + 2 <= |s| && s[i] == '{' && s[i + 1] == '{' then
        match CloseBraces(s, i + 2)
        case Some(j) => Some(j + 2)
        case None => None
      else None
    case Call =>
      match CallAt(s, i)
      case Some(pk) => Some(pk.1 + 1)
      case None => None
  }

  // ---------------------------------------------------------------------
  // What one match is, stated without the search

  /** s[j..j + 2] is the first "}}" from position from on, and no line
      terminator comes before it. */
  predicate IsCloseBraces(s: string, from: nat, j: nat) {
    && from <= j && j + 2 <= |s| && s[j] == '}' && s[j + 1] == '}'
    && NoLineBreak(s, from, j)
    && forall m :: from <= m < j ==> !(s[m] == '}' && s[m + 1] == '}')
  }

  /** s[i..e] is "{{", text without a line terminator or "}}", and "}}". */
  predicate IsBraces(s: string, i: nat, e: nat) {
    i + 4 <= e && IsCloseBraces(s, i + 2, e - 2) && s[i] == '{' && s[i + 1] == '{'
  }

  /** s[k] is the first ")" from q on, and no line terminator comes before it. */
  predicate IsClose(s: string, q: nat, k: nat) {
    && q <= k < |s| && s[k] == ')'
    && NoLineBreak(s, q, k)
    && forall j :: q <= j < k ==> s[j] != ')'
  }

  /** s[i..k + 1] is '#', a name of at least one character, "(", arguments
      and ")", all on one line; the name is the shortest after which comes
      an opening parenthesis with a closing one after it, and the arguments
      end at the first ")". */
  predicate IsCall(s: string, i: nat, p: nat, k: nat) {
    && i + 2 <= p < k < |s|
    && s[i] == '#' && s[p] == '('
    && NoLineBreak(s, i + 1, p)
    && IsClose(s, p + 1, k)
    && forall q :: i + 2 <= q < p ==> !(s[q] == '(' && CloseParen(s, q + 1).Some?)
  }

  lemma {:induction false} CloseBracesIff(s: string, from: nat, j: nat)
    requires from <= |s|
    ensures CloseBraces(s, from) == Some(j) <==> IsCloseBraces(s, from, j)
    decreases |s| - from
  {
    if from + 2 <= |s| && !(s[from] == '}' && s[from + 1] == '}') && !IsLineTerminator(s[from]) {
      CloseBracesIff(s, from + 1, j);
    }
  }

  lemma {:induction false} CloseParenIff(s: string, q: nat, k: nat)
    requires q <= |s|
    ensures CloseParen(s, q) == Some(k) <==> IsClose(s, q, k)
    decreases |s| - q
  {
    if q < |s| && s[q] != ')' && !IsLineTerminator(s[q]) {
      CloseParenIff(s, q + 1, k);
    }
  }

  /** The search for "{{…}}" finds exactly the matches IsBraces describes. */
  lemma BracesIff(s: string, i: nat, e: nat)
    ensures MatchEnd(Braces, s, i) == Some(e) <==> IsBraces(s, i, e)
  {
    if i + 2 <= |s| && e >= 2 {
      CloseBracesIff(s, i + 2, e - 2);
    }
  }

  lemma {:induction false} CallFromIff(s: string, i: nat, p: nat, p': nat, k: nat)
    requires i + 2 <= p <= |s| && s[i] == '#' && NoLineBreak(s, i + 1, p)
    requires forall q :: i + 2 <= q < p ==> !(s[q] == '(' && CloseParen(s, q + 1).Some?)
    ensures CallFrom(s, i, p) == Some((p', k)) <==> p <= p' && IsCall(s, i, p', k)
    decreases |s| - p
  {
    if p < |s| {
      if s[p] == '(' {
        CloseParenIff(s, p + 1, k);
      }
      if !(s[p] == '(' && CloseParen(s, p + 1).Some?) && !IsLineTerminator(s[p]) {
        CallFromIff(s, i, p + 1, p', k);
      }
    }
  }

  /** The search for "#name(args)" finds exactly the matches IsCall describes. */
  lemma CallAtIff(s: string, i: nat, p: nat, k: nat)
    ensures CallAt(s, i) == Some((p, k)) <==> IsCall(s, i, p, k)
  {
    if i + 2 <= |s| && s[i] == '#' && !IsLineTerminator(s[i + 1]) {
      CallFromIff(s, i, i + 2, p, k);
    }
  }

  // ---------------------------------------------------------------------
  // All matches, left to right

  /** The leftmost match of pat at or after from. */
  function NextMatch(pat: Pattern, s: string, from: nat): (r: Option<Span>)
    requires from <= |s|
    ensures r.Some? ==> from <= r.value.start < r.value.end <= |s|
    ensures r.Some? ==> MatchEnd(pat, s, r.value.start) == Some(r.value.end)
    ensures r.Some? ==> forall k :: from <= k < r.value.start ==> MatchEnd(pat, s, k).None?
    ensures r.None? ==> forall k :: from <= k <= |s| ==> MatchEnd(pat, s, k).None?
    decreases |s| - from
  {
    match MatchEnd(pat, s, from)
    case Some(e) => Some(Span(from, e))
    case None => if from == |s| then None else NextMatch(pat, s, from + 1)
  }

  /** Spans in increasing order, apart from each other, between lo and hi. */
  predicate Ordered(ms: seq<Span>, lo: nat, hi: nat)
    decreases |ms|
  {
    if ms == [] then lo <= hi
    else lo <= ms[0].start < ms[0].end <= hi && Ordered(ms[1..], ms[0].end, hi)
  }

  /** Every match of the global search from position from, in order. */
  function Matches(pat: Pattern, s: string, from: nat): (ms: seq<Span>)
    requires from <= |s|
    ensures Ordered(ms, from, |s|)
    ensures forall m :: m in ms ==> MatchEnd(pat, s, m.start) == Some(m.end)
    decreases |s| - from
  {
    match NextMatch(pat, s, from)
    case None => []
    case Some(m) => [m] + Matches(pat, s, m.end)
  }

  /** ms are the matches a left-to-right global search from position from
      finds: each is a match of pat, none starts before it since the end of
      the previous one, and none starts after the last. */
  predicate Leftmost(pat: Pattern, s: string, ms: seq<Span>, from: nat)
    decreases |ms|
  {
    if ms == [] then forall k :: from <= k <= |s| ==> MatchEnd(pat, s, k).None?
    else
      && from <= ms[0].start
      && MatchEnd(pat, s, ms[0].start) == Some(ms[0].end)
      && (forall k :: from <= k < ms[0].start ==> MatchEnd(pat, s, k).None?)
      && Leftmost(pat, s, ms[1..], ms[0].end)
  }

  /** Matches finds the leftmost matches, and they are the only sequence that is. */
  lemma {:induction false} MatchesLeftmost(pat: Pattern, s: string, from: nat, ms: seq<Span>)
    requires from <= |s|
    ensures Leftmost(pat, s, Matches(pat, s, from), from)
    ensures Leftmost(pat, s, ms, from) ==> ms == Matches(pat, s, from)
    decreases |s| - from
  {
    var r := NextMatch(pat, s, from);
    if r.Some? {
      var m := r.value;
      assert Matches(pat, s, from) == [m] + Matches(pat, s, m.end);
      assert Matches(pat, s, from)[1..] == Matches(pat, s, m.end);
      if ms != [] && Leftmost(pat, s, ms, from) {
        assert ms[0].start == m.start;
        MatchesLeftmost(pat, s, m.end, ms[1..]);
        assert ms == [ms[0]] + ms[1..];
      } else {
        MatchesLeftmost(pat, s, m.end, []);
      }
    }
  }

  // ---------------------------------------------------------------------
  // Replacing the matches

  /** s from pos on with the i-th span of ms replaced by texts[i]. */
  function Splice(s: string, ms: seq<Span>, texts: seq<string>, pos: nat): string
    requires Ordered(ms, pos, |s|) && |texts| == |ms|
    decreases |ms|
  {
    if ms == [] then s[pos..]
    else s[pos..ms[0].start] + texts[0] + Splice(s, ms[1..], texts[1..], ms[0].end)
  }

  /** The text between the spans: before the first, between each two, after the last. */
  function Gaps(s: string, ms: seq<Span>, pos: nat): (gs: seq<string>)
    requires Ordered(ms, pos, |s|)
    ensures |gs| == |ms| + 1
    decreases |ms|
  {
    if ms == [] then [s[pos..]]
    else [s[pos..ms[0].start]] + Gaps(s, ms[1..], ms[0].end)
  }

  /** The text of each span. */
  function Matched(s: string, ms: seq<Span>, pos: nat): (ts: seq<string>)
    requires Ordered(ms, pos, |s|)
    ensures |ts| == |ms|
    decreases |ms|
  {
    if ms == [] then [] else [s[ms[0].start..ms[0].end]] + Matched(s, ms[1..], ms[0].end)
  }

  /** gaps[0] + xs[0] + gaps[1] + … + xs[n - 1] + gaps[n]. */
  function Interleave(gaps: seq<string>, xs: seq<string>): string
    requires |gaps| == |xs| + 1
    decreases |xs|
  {
    if xs == [] then gaps[0] else gaps[0] + xs[0] + Interleave(gaps[1..], xs[1..])
  }

  /** The gaps and the matched texts, in turn, make up the text. */
  lemma {:induction false} GapsAndMatches(s: string, ms: seq<Span>, pos: nat)
    requires Ordered(ms, pos, |s|)
    ensures Interleave(Gaps(s, ms, pos), Matched(s, ms, pos)) == s[pos..]
    decreases |ms|
  {
    if ms != [] {
      var m := ms[0];
      var gaps, texts := Gaps(s, ms, pos), Matched(s, ms, pos);
      GapsAndMatches(s, ms[1..], m.end);
      assert gaps[0] == s[pos..m.start] && gaps[1..] == Gaps(s, ms[1..], m.end);
      assert texts[0] == s[m.start..m.end] && texts[1..] == Matched(s, ms[1..], m.end);
      calc {
        Interleave(gaps, texts);
        gaps[0] + texts[0] + Interleave(gaps[1..], texts[1..]);
        s[pos..m.start] + s[m.start..m.end] + s[m.end..];
        { assert s[pos..] == s[pos..m.start] + s[m.start..m.end] + s[m.end..]; }
        s[pos..];
      }
    }
  }

  /** Splicing keeps the gaps and puts texts[i] where the i-th match was. */
  lemma {:induction false} SpliceKeepsGaps(s: string, ms: seq<Span>, texts: seq<string>, pos: nat)
    requires Ordered(ms, pos, |s|) && |texts| == |ms|
    ensures Splice(s, ms, texts, pos) == Interleave(Gaps(s, ms, pos), texts)
    decreases |ms|
  {
    if ms != [] {
      SpliceKeepsGaps(s, ms[1..], texts[1..], ms[0].end);
      assert Gaps(s, ms, pos)[1..] == Gaps(s, ms[1..], ms[0].end);
    }
  }

  /** Text without the character a match of pat starts with has no match. */
  lemma NoStartNoMatch(pat: Pattern, s: string)
    requires forall k :: 0 <= k < |s| ==> s[k] != (if pat == Braces then '{' else '#')
    ensures Matches(pat, s, 0) == []
  {
  }

  /** Matches, one step: the next match, then the matches after it. */
  lemma MatchesNext(pat: Pattern, s: string, from: nat)
    requires from <= |s|
    ensures NextMatch(pat, s, from).None? ==> Matches(pat, s, from) == []
    ensures NextMatch(pat, s, from).Some? ==>
      var m := NextMatch(pat, s, from).value;
      Matches(pat, s, from) == [m] + Matches(pat, s, m.end)
  {
  }

  /** Splice, one step: the gap before the first span, its text, and the rest. */
  lemma SpliceNext(s: string, m: Span, ms: seq<Span>, texts: seq<string>, pos: nat)
    requires Ordered([m] + ms, pos, |s|) && |texts| == |ms| + 1
    ensures Ordered(ms, m.end, |s|)
    ensures Splice(s, [m] + ms, texts, pos) == s[pos..m.start] + texts[0] + Splice(s, ms, texts[1..], m.end)
  {
    assert ([m] + ms)[1..] == ms;
  }
}
