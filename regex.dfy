/** The regular expressions the services apply, each written out as the
    deterministic matcher its backtracking semantics amounts to, and the global
    (`/g`) scan that `exec` loops and `replace` perform with them: leftmost
    matches, each search resuming where the previous match ended. */
module Regex {
  import opened Common
  import opened JsString

  /** The patterns, as written in the services. */
  datatype Pattern =
    | KeyValue       // /(\w+):\s*(\d+(?:\.\d+)?)/g
    | Table          // /\|[^|]+\|/g
    | Bullet         // /[-*]\s*([^:]+):\s*(\d+(?:\.\d+)?)/g
    | ChartMarker    // /\[CHART:\s*([^\]]+)\]/g
    | DiagramMarker  // /\[DIAGRAM:\s*([^\]]+)\]/g
    | Tag            // /<[^>]*>/g

  function GroupCount(pat: Pattern): nat {
    match pat
    case KeyValue => 2
    case Bullet => 2
    case ChartMarker => 1
    case DiagramMarker => 1
    case _ => 0
  }

  /** A successful match: `captures[0]` is the matched text `s[start..end]`,
      `captures[i]` the i-th group, as in the array `exec` returns. */
  datatype Match = Match(start: nat, end: nat, captures: seq<string>)

  predicate WellFormed(pat: Pattern, s: string, m: Match) {
    m.start < m.end <= |s| && |m.captures| == GroupCount(pat) + 1 &&
    m.captures[0] == s[m.start..m.end]
  }

  /** Where `\s*(\d+(?:\.\d+)?)` starting at `i` puts its group. Shorter runs of
      `\s*` or `\d+` never help: what follows them would have to be a digit. */
  function NumeralAfter(s: string, i: nat): (r: Option<(nat, nat)>)
    requires i <= |s|
    ensures r.Some? ==> i <= r.value.0 < r.value.1 <= |s|
  {
    var a := RunEnd(s, i, Space);
    if a == |s| || !IsDigit(s[a]) then None
    else
      var d := RunEnd(s, a, Digit);
      if d + 1 < |s| && s[d] == '.' && IsDigit(s[d + 1]) then Some((a, RunEnd(s, d + 1, Digit)))
      else Some((a, d))
  }

  /** `(\w+):\s*(\d+(?:\.\d+)?)` at `p`: the word run is taken whole, since a
      shorter one would be followed by a word character instead of ':'. */
  function KeyValueAt(s: string, p: nat): (r: Option<Match>)
    requires p <= |s|
    ensures r.Some? ==> r.value.start == p && WellFormed(KeyValue, s, r.value)
  {
    var w := RunEnd(s, p, Word);
    if w == p || w == |s| || s[w] != ':' then None
    else
      match NumeralAfter(s, w + 1)
      case None => None
      case Some((a, e)) => Some(Match(p, e, [s[p..e], s[p..w], s[a..e]]))
  }

  /** `[-*]\s*([^:]+):\s*(\d+(?:\.\d+)?)` at `p`. The group ends at the first ':'
      after the marker character; it starts after the white space, except when
      only white space precedes the ':', where backtracking leaves it the last
      white-space character. */
  function BulletAt(s: string, p: nat): (r: Option<Match>)
    requires p <= |s|
    ensures r.Some? ==> r.value.start == p && WellFormed(Bullet, s, r.value)
  {
    if p == |s| || (s[p] != '-' && s[p] != '*') then None
    else
      match IndexFrom(s, ":", p + 1)
      case None => None
      case Some(c) =>
        if c == p + 1 then None
        else
          var g := GroupStart(s, p + 1, c);
          match NumeralAfter(s, c + 1)
          case None => None
          case Some((a, e)) => Some(Match(p, e, [s[p..e], s[g..c], s[a..e]]))
  }

  /** Start of the group `\s*([^X]+)` when `b` is where the `\s*` starts and `c`
      the first X at or after `b`. */
  function GroupStart(s: string, b: nat, c: nat): (g: nat)
    requires b < c < |s| && !IsSpace(s[c])
    ensures b <= g < c
  {
    var w := RunEnd(s, b, Space);
    if w < c then w else c - 1
  }

  /** `\[KEYWORD:\s*([^\]]+)\]` at `p`, where `open` is "[KEYWORD:". */
  function MarkerAt(s: string, p: nat, open: string): (r: Option<Match>)
    requires p <= |s|
    ensures r.Some? ==> (r.value.start == p && r.value.start < r.value.end <= |s| &&
                         |r.value.captures| == 2 && r.value.captures[0] == s[p..r.value.end])
  {
    if !OccursAt(s, open, p) then None
    else
      var b := p + |open|;
      match IndexFrom(s, "]", b)
      case None => None
      case Some(c) =>
        if c == b then None
        else
          assert s[c] == s[c..c + 1][0];
          var g := GroupStart(s, b, c);
          Some(Match(p, c + 1, [s[p..c + 1], s[g..c]]))
  }

  /** `<[^>]*>` at `p`: from a '<' to the next '>'. */
  function TagAt(s: string, p: nat): (r: Option<Match>)
    requires p <= |s|
    ensures r.Some? ==> r.value.start == p && WellFormed(Tag, s, r.value)
  {
    if p == |s| || s[p] != '<' then None
    else
      match IndexFrom(s, ">", p + 1)
      case None => None
      case Some(c) => Some(Match(p, c + 1, [s[p..c + 1]]))
  }

  /** `\|[^|]+\|` at `p`. */
  function TableAt(s: string, p: nat): (r: Option<Match>)
    requires p <= |s|
    ensures r.Some? ==> r.value.start == p && WellFormed(Table, s, r.value)
  {
    if p == |s| || s[p] != '|' then None
    else
      match IndexFrom(s, "|", p + 1)
      case None => None
      case Some(c) => if c == p + 1 then None else Some(Match(p, c + 1, [s[p..c + 1]]))
  }

  const ChartOpen := "[CHART:"
  const DiagramOpen := "[DIAGRAM:"

  /** The match of `pat` that starts exactly at `p`, if any. */
  function MatchAt(pat: Pattern, s: string, p: nat): (r: Option<Match>)
    requires p <= |s|
    ensures r.Some? ==> r.value.start == p && WellFormed(pat, s, r.value)
  {
    match pat
    case KeyValue => KeyValueAt(s, p)
    case Table => TableAt(s, p)
    case Bullet => BulletAt(s, p)
    case ChartMarker => MarkerAt(s, p, ChartOpen)
    case DiagramMarker => MarkerAt(s, p, DiagramOpen)
    case Tag => TagAt(s, p)
  }

  /** `m` is the match of `pat` in `s` that starts where it starts. */
  predicate Found(pat: Pattern, s: string, m: Match) {
    m.start <= |s| && MatchAt(pat, s, m.start) == Some(m)
  }

  predicate MatchesAt(pat: Pattern, s: string, q: nat)
    requires q <= |s|
  {
    MatchAt(pat, s, q).Some?
  }

  /** `pat` matches at no position in [lo, hi). */
  predicate NoMatchIn(pat: Pattern, s: string, lo: nat, hi: nat) {
    forall q :: lo <= q < hi && q <= |s| ==> !MatchesAt(pat, s, q)
  }

  /** `re.exec(s)` with `re.lastIndex == from`: the leftmost match starting at or
      after `from`. */
  function Exec(pat: Pattern, s: string, from: nat): (r: Option<Match>)
    requires from <= |s|
    ensures r.Some? ==> from <= r.value.start < r.value.end <= |s| && |r.value.captures| == GroupCount(pat) + 1
    decreases |s| - from
  {
    match MatchAt(pat, s, from)
    case Some(m) => Some(m)
    case None => if from == |s| then None else Exec(pat, s, from + 1)
  }

  /** What `exec` returns is a match of the pattern, and no match starts between
      `from` and it (or anywhere after `from` when there is none). Stated apart
      from `Exec` so that only the proofs that need these facts see them. */
  lemma ExecSpec(pat: Pattern, s: string, from: nat)
    requires from <= |s|
    ensures Exec(pat, s, from).Some? ==> Found(pat, s, Exec(pat, s, from).value)
    ensures NoMatchIn(pat, s, from, if Exec(pat, s, from).None? then |s| + 1 else Exec(pat, s, from).value.start)
  {
    ExecFound(pat, s, from);
    ExecFirst(pat, s, from);
  }

  lemma {:induction false} ExecFound(pat: Pattern, s: string, from: nat)
    requires from <= |s|
    ensures Exec(pat, s, from).Some? ==> Found(pat, s, Exec(pat, s, from).value)
    decreases |s| - from
  {
    if MatchAt(pat, s, from).None? && from < |s| {
      ExecFound(pat, s, from + 1);
    }
  }

  lemma {:induction false} ExecFirst(pat: Pattern, s: string, from: nat)
    requires from <= |s|
    ensures NoMatchIn(pat, s, from, if Exec(pat, s, from).None? then |s| + 1 else Exec(pat, s, from).value.start)
    decreases |s| - from
  {
    if !MatchesAt(pat, s, from) {
      if from < |s| {
        ExecSkip(pat, s, from);
        ExecFirst(pat, s, from + 1);
        NoMatchExtend(pat, s, from, if Exec(pat, s, from).None? then |s| + 1 else Exec(pat, s, from).value.start);
      } else {
        ExecEnd(pat, s);
      }
    } else {
      ExecHere(pat, s, from);
    }
  }

  /** No match at `from`: `exec` moves on. */
  lemma ExecSkip(pat: Pattern, s: string, from: nat)
    requires from < |s| && !MatchesAt(pat, s, from)
    ensures Exec(pat, s, from) == Exec(pat, s, from + 1)
  {
  }

  /** A match at `from` is what `exec` returns. */
  lemma ExecHere(pat: Pattern, s: string, from: nat)
    requires from <= |s| && MatchesAt(pat, s, from)
    ensures Exec(pat, s, from).Some? && Exec(pat, s, from).value.start == from
  {
  }

  /** No match at the end of the text: `exec` finds nothing. */
  lemma ExecEnd(pat: Pattern, s: string)
    requires !MatchesAt(pat, s, |s|)
    ensures Exec(pat, s, |s|).None? && NoMatchIn(pat, s, |s|, |s| + 1)
  {
  }

  lemma NoMatchExtend(pat: Pattern, s: string, from: nat, hi: nat)
    requires from < |s| && !MatchesAt(pat, s, from) && NoMatchIn(pat, s, from + 1, hi)
    ensures NoMatchIn(pat, s, from, hi)
  {
  }

  /** The matches a `while ((m = re.exec(s)) !== null)` loop sees, starting with
      `re.lastIndex == from`: each search resumes where the previous match ended. */
  function MatchAll(pat: Pattern, s: string, from: nat): (r: seq<Match>)
    requires from <= |s|
    ensures forall i :: 0 <= i < |r| ==> |r[i].captures| == GroupCount(pat) + 1
    decreases |s| - from
  {
    match Exec(pat, s, from)
    case None => []
    case Some(m) =>
      var rest := MatchAll(pat, s, m.end);
      assert forall i :: 0 <= i < |rest| ==> ([m] + rest)[i + 1] == rest[i];
      [m] + rest
  }

  /** Every element of `r` is a match of `pat` starting at or after `from`. */
  predicate AllFound(pat: Pattern, s: string, from: nat, r: seq<Match>) {
    forall i :: 0 <= i < |r| ==> from <= r[i].start && Found(pat, s, r[i])
  }

  /** The scan yields the leftmost non-overlapping matches: they are matches, in
      left-to-right order, without overlap, and every position from `from` on
      where the pattern matches lies inside one of them. */
  lemma MatchAllSpec(pat: Pattern, s: string, from: nat)
    requires from <= |s|
    ensures AllFound(pat, s, from, MatchAll(pat, s, from))
    ensures Ordered(MatchAll(pat, s, from))
    ensures Covers(pat, s, from, MatchAll(pat, s, from))
  {
    MatchAllFound(pat, s, from);
    MatchAllOrdered(pat, s, from);
    MatchAllCovers(pat, s, from);
  }

  lemma {:induction false} MatchAllFound(pat: Pattern, s: string, from: nat)
    requires from <= |s|
    ensures AllFound(pat, s, from, MatchAll(pat, s, from))
    decreases |s| - from
  {
    ExecSpec(pat, s, from);
    match Exec(pat, s, from)
    case None =>
    case Some(m) =>
      var rest := MatchAll(pat, s, m.end);
      MatchAllFound(pat, s, m.end);
      FoundCons(pat, s, from, m, rest);
  }

  lemma FoundCons(pat: Pattern, s: string, from: nat, m: Match, rest: seq<Match>)
    requires from <= m.start && m.start < m.end && Found(pat, s, m) && AllFound(pat, s, m.end, rest)
    ensures AllFound(pat, s, from, [m] + rest)
  {
    assert forall i :: 0 <= i < |rest| ==> ([m] + rest)[i + 1] == rest[i];
  }

  lemma {:induction false} MatchAllOrdered(pat: Pattern, s: string, from: nat)
    requires from <= |s|
    ensures Ordered(MatchAll(pat, s, from))
    decreases |s| - from
  {
    match Exec(pat, s, from)
    case None =>
    case Some(m) =>
      var rest := MatchAll(pat, s, m.end);
      MatchAllOrdered(pat, s, m.end);
      MatchAllFound(pat, s, m.end);
      OrderStep(m, rest);
  }

  lemma {:induction false} MatchAllCovers(pat: Pattern, s: string, from: nat)
    requires from <= |s|
    ensures Covers(pat, s, from, MatchAll(pat, s, from))
    decreases |s| - from
  {
    ExecSpec(pat, s, from);
    match Exec(pat, s, from)
    case None =>
    case Some(m) =>
      MatchAllCovers(pat, s, m.end);
      CoverStep(pat, s, from, m, MatchAll(pat, s, m.end));
  }

  /** Each match ends before the next one starts. */
  predicate Ordered(r: seq<Match>) {
    forall i :: 0 <= i < |r| - 1 ==> r[i].end <= r[i + 1].start
  }

  lemma OrderStep(m: Match, rest: seq<Match>)
    requires Ordered(rest)
    requires forall i :: 0 <= i < |rest| ==> m.end <= rest[i].start
    ensures Ordered([m] + rest)
  {
    var r := [m] + rest;
    forall i | 0 <= i < |r| - 1
      ensures r[i].end <= r[i + 1].start
    {
      if i > 0 {
        assert r[i] == rest[i - 1] && r[i + 1] == rest[i];
      }
    }
  }

  /** One step of the scan: the first match, then the scan from its end. */
  lemma MatchAllStep(pat: Pattern, s: string, from: nat)
    requires from <= |s|
    ensures Exec(pat, s, from).None? ==> MatchAll(pat, s, from) == []
    ensures Exec(pat, s, from).Some? ==>
      MatchAll(pat, s, from) == [Exec(pat, s, from).value] + MatchAll(pat, s, Exec(pat, s, from).value.end)
  {
  }

  /** Two scan positions from which `exec` finds the same thing scan alike. */
  lemma MatchAllSame(pat: Pattern, s: string, p: nat, q: nat)
    requires p <= |s| && q <= |s| && Exec(pat, s, p) == Exec(pat, s, q)
    ensures MatchAll(pat, s, p) == MatchAll(pat, s, q)
  {
  }

  /** The capture arrays of a sequence of matches. */
  function CapturesOf(ms: seq<Match>): seq<seq<string>> {
    seq(|ms|, i requires 0 <= i < |ms| => ms[i].captures)
  }

  lemma CapturesOfCons(m: Match, rest: seq<Match>)
    ensures CapturesOf([m] + rest) == [m.captures] + CapturesOf(rest)
  {
    var a := CapturesOf([m] + rest);
    var b := [m.captures] + CapturesOf(rest);
    forall i | 0 <= i < |a|
      ensures a[i] == b[i]
    {
      if i > 0 {
        assert ([m] + rest)[i] == rest[i - 1];
      }
    }
  }

  predicate Covers(pat: Pattern, s: string, from: nat, r: seq<Match>)
    requires from <= |s|
  {
    forall q :: from <= q <= |s| && MatchesAt(pat, s, q) ==> CoveredBy(r, q)
  }

  /** Position `q` lies inside one of the matches `r`. */
  predicate CoveredBy(r: seq<Match>, q: nat) {
    exists i :: 0 <= i < |r| && r[i].start <= q < r[i].end
  }

  lemma CoverStep(pat: Pattern, s: string, from: nat, m: Match, rest: seq<Match>)
    requires from <= |s| && Exec(pat, s, from) == Some(m)
    requires Covers(pat, s, m.end, rest)
    ensures Covers(pat, s, from, [m] + rest)
  {
    var r := [m] + rest;
    ExecSpec(pat, s, from);
    forall q | from <= q <= |s| && MatchesAt(pat, s, q)
      ensures CoveredBy(r, q)
    {
      if q < m.end {
        assert m.start <= q;
        assert r[0] == m;
      } else {
        assert MatchesAt(pat, s, q);
        var i :| 0 <= i < |rest| && rest[i].start <= q < rest[i].end;
        assert r[i + 1] == rest[i];
      }
    }
  }

  /** `s.replace(re, '')` for a global `re`, from position `from`: the text
      between the matches. */
  function RemoveMatches(pat: Pattern, s: string, from: nat): string
    requires from <= |s|
    decreases |s| - from
  {
    match Exec(pat, s, from)
    case None => s[from..]
    case Some(m) => s[from..m.start] + RemoveMatches(pat, s, m.end)
  }

  /** What a key/value match holds: a non-empty run of word characters that
      starts the match and is followed by ':', and a numeral starting with a digit. */
  lemma KeyValueShape(s: string, m: Match)
    requires Found(KeyValue, s, m)
    ensures |m.captures| == 3
    ensures m.captures[1] != [] && AllIn(m.captures[1], Word)
    ensures m.start + |m.captures[1]| < |s| && s[m.start..m.start + |m.captures[1]|] == m.captures[1]
    ensures s[m.start + |m.captures[1]|] == ':'
    ensures m.captures[2] != [] && IsDigit(m.captures[2][0])
  {
    var w := RunEnd(s, m.start, Word);
    RunEndAll(s, m.start, Word);
    assert m.captures[1] == s[m.start..w];
  }

  /** An entry "word: digits" at `p`, not continued by a digit or a '.', is
      matched whole there, with the word and the digits as its groups. */
  lemma KeyValueAtEntry(s: string, p: nat, w: string, n: string)
    requires w != [] && AllIn(w, Word) && n != [] && AllIn(n, Digit)
    requires p + |w| + 2 + |n| <= |s| && s[p..p + |w| + 2 + |n|] == w + ": " + n
    requires p + |w| + 2 + |n| < |s| ==> !IsDigit(s[p + |w| + 2 + |n|]) && s[p + |w| + 2 + |n|] != '.'
    ensures KeyValueAt(s, p) == Some(Match(p, p + |w| + 2 + |n|, [w + ": " + n, w, n]))
  {
    var c := p + |w|;
    var a := c + 2;
    var e := a + |n|;
    EntrySlices(s, p, w, n);
    RunEndSlice(s, p, c, Word);
    RunEndIs(s, c + 1, a, Space);
    RunEndSlice(s, a, e, Digit);
    NumeralAfterParts(s, c + 1, a, e);
    KeyValueAtParts(s, p, c, a, e, w + ": " + n, w, n);
  }

  lemma EntrySlices(s: string, p: nat, w: string, n: string)
    requires w != [] && n != []
    requires p + |w| + 2 + |n| <= |s| && s[p..p + |w| + 2 + |n|] == w + ": " + n
    ensures s[p..p + |w|] == w && s[p + |w|] == ':' && s[p + |w| + 1] == ' '
    ensures s[p + |w| + 2..p + |w| + 2 + |n|] == n && s[p + |w| + 2] == n[0]
  {
    var t := w + ": " + n;
    assert s[p..p + |w|] == t[..|w|];
    assert s[p + |w|] == t[|w|] && s[p + |w| + 1] == t[|w| + 1];
    assert s[p + |w| + 2..p + |w| + 2 + |n|] == t[|w| + 2..];
  }

  lemma NumeralAfterParts(s: string, i: nat, a: nat, e: nat)
    requires i <= a < e <= |s| && RunEnd(s, i, Space) == a && IsDigit(s[a])
    requires RunEnd(s, a, Digit) == e && (e < |s| ==> s[e] != '.')
    ensures NumeralAfter(s, i) == Some((a, e))
  {
  }

  lemma KeyValueAtParts(s: string, p: nat, c: nat, a: nat, e: nat, whole: string, word: string, num: string)
    requires p < c < |s| && RunEnd(s, p, Word) == c && s[c] == ':'
    requires NumeralAfter(s, c + 1) == Some((a, e))
    requires s[p..e] == whole && s[p..c] == word && s[a..e] == num
    ensures KeyValueAt(s, p) == Some(Match(p, e, [whole, word, num]))
  {
  }

  lemma BulletAtParts(s: string, p: nat, c: nat, g: nat, a: nat, e: nat, whole: string, name: string, num: string)
    requires p < |s| && (s[p] == '-' || s[p] == '*')
    requires p + 1 <= |s| && IndexFrom(s, ":", p + 1) == Some(c) && c != p + 1
    requires RunEnd(s, p + 1, Space) == g && g < c
    requires c < |s| && NumeralAfter(s, c + 1) == Some((a, e))
    requires s[p..e] == whole && s[g..c] == name && s[a..e] == num
    ensures BulletAt(s, p) == Some(Match(p, e, [whole, name, num]))
  {
  }

  /** What a bullet match holds: it starts with '-' or '*', and its label group is
      non-empty and has no ':'. */
  lemma BulletShape(s: string, m: Match)
    requires Found(Bullet, s, m)
    ensures |m.captures| == 3
    ensures s[m.start] == '-' || s[m.start] == '*'
    ensures m.captures[1] != [] && ':' !in m.captures[1]
    ensures m.captures[2] != [] && IsDigit(m.captures[2][0])
  {
    var p := m.start;
    var c := IndexFrom(s, ":", p + 1).value;
    forall i | p + 1 <= i < c
      ensures s[i] != ':'
    {
      OccursChar(s, ':', i);
    }
  }

  /** The keyword a marker pattern opens with. */
  function Opening(pat: Pattern): string {
    if pat == ChartMarker then ChartOpen else DiagramOpen
  }

  /** What a marker match holds: the keyword, white space, the description, then
      the first ']' after the keyword. The description is non-empty and has no ']'. */
  lemma MarkerShape(pat: Pattern, s: string, m: Match) returns (padding: string)
    requires pat == ChartMarker || pat == DiagramMarker
    requires Found(pat, s, m)
    ensures |m.captures| == 2
    ensures m.captures[1] != [] && ']' !in m.captures[1]
    ensures AllIn(padding, Space)
    ensures m.captures[0] == Opening(pat) + padding + m.captures[1] + "]"
  {
    padding := MarkerAtShape(s, m.start, Opening(pat), m);
  }

  lemma MarkerAtShape(s: string, p: nat, open: string, m: Match) returns (padding: string)
    requires p <= |s| && MarkerAt(s, p, open) == Some(m)
    ensures |m.captures| == 2
    ensures m.captures[1] != [] && ']' !in m.captures[1]
    ensures AllIn(padding, Space)
    ensures m.captures[0] == open + padding + m.captures[1] + "]"
  {
    var b := p + |open|;
    var c := IndexFrom(s, "]", b).value;
    var g := GroupStart(s, b, c);
    NoCloseBefore(s, b, c);
    GroupStartSpaces(s, b, c);
    padding := s[b..g];
    PieceSlices(s, p, b, g, c, open);
  }

  /** From `b`, the first ']' is at `c`: nothing in between is a ']'. */
  lemma NoCloseBefore(s: string, b: nat, c: nat)
    requires b <= |s| && IndexFrom(s, "]", b) == Some(c)
    ensures c < |s| && s[c] == ']'
    ensures forall i :: b <= i < c ==> s[i] != ']'
  {
    OccursChar(s, ']', c);
    forall i | b <= i < c
      ensures s[i] != ']'
    {
      OccursChar(s, ']', i);
    }
  }

  /** What `\s*` skips before the group is white space. */
  lemma GroupStartSpaces(s: string, b: nat, c: nat)
    requires b < c < |s| && !IsSpace(s[c])
    ensures AllIn(s[b..GroupStart(s, b, c)], Space)
  {
    var g := GroupStart(s, b, c);
    RunEndAll(s, b, Space);
    forall k | 0 <= k < g - b
      ensures IsSpace(s[b..g][k])
    {
      assert s[b..g][k] == s[b + k];
    }
  }

  lemma PieceSlices(s: string, p: nat, b: nat, g: nat, c: nat, open: string)
    requires p <= b <= g <= c < |s| && OccursAt(s, open, p) && b == p + |open| && s[c] == ']'
    ensures s[p..c + 1] == open + s[b..g] + s[g..c] + "]"
  {
    assert s[p..b] == open;
    assert s[c..c + 1] == "]";
    assert s[p..c + 1] == s[p..b] + s[b..g] + s[g..c] + s[c..c + 1];
  }

  /** Text that reads like a marker (the keyword, white space, a description
      without ']', then ']') is where the marker pattern matches. */
  lemma MarkerTextMatches(s: string, q: nat, open: string, padding: string, description: string)
    requires AllIn(padding, Space) && description != [] && ']' !in description
    ensures OccursAt(s, open + padding + description + "]", q) ==> q <= |s| && MarkerAt(s, q, open).Some?
  {
    var text := open + padding + description + "]";
    if OccursAt(s, text, q) {
      var b := q + |open|;
      var c := q + |text| - 1;
      assert s[q..q + |text|] == text;
      assert s[q..b] == s[q..q + |text|][..|open|];
      assert OccursAt(s, open, q);
      assert s[c] == text[|text| - 1] == ']';
      forall k | b <= k < c
        ensures s[k] != ']'
      {
        assert s[k] == text[k - q];
        if k - b < |padding| {
          assert text[k - q] == padding[k - b];
          assert IsSpace(padding[k - b]);
        } else {
          assert text[k - q] == description[k - b - |padding|];
        }
      }
      IndexCharIs(s, ']', b, c);
    }
  }

  /** Where the pattern matches nowhere from `from` on, `exec` finds nothing. */
  lemma {:induction false} ExecNone(pat: Pattern, s: string, from: nat)
    requires from <= |s| && NoMatchIn(pat, s, from, |s| + 1)
    ensures Exec(pat, s, from).None?
    decreases |s| - from
  {
    assert !MatchesAt(pat, s, from);
    if from < |s| {
      ExecNone(pat, s, from + 1);
    }
  }

  /** A marker pattern matches only where its keyword, and so a '[', is. */
  lemma MarkerNeedsBracket(pat: Pattern, s: string)
    requires pat == ChartMarker || pat == DiagramMarker
    requires '[' !in s
    ensures NoMatchIn(pat, s, 0, |s| + 1)
  {
    var open := Opening(pat);
    assert open[0] == '[';
    forall q | 0 <= q <= |s|
      ensures !MatchesAt(pat, s, q)
    {
      if q + |open| <= |s| {
        assert s[q..q + |open|][0] == s[q];
      }
      assert !OccursAt(s, open, q);
    }
  }

  /** The text of the leftmost marker does not occur anywhere before it. */
  lemma NoTextBefore(pat: Pattern, s: string, m: Match, q: nat)
    requires pat == ChartMarker || pat == DiagramMarker
    requires Exec(pat, s, 0) == Some(m) && q < m.start
    ensures !OccursAt(s, m.captures[0], q)
  {
    ExecSpec(pat, s, 0);
    var padding := MarkerShape(pat, s, m);
    MarkerTextMatches(s, q, Opening(pat), padding, m.captures[1]);
    assert !MatchesAt(pat, s, q);
  }

  /** So the first place the leftmost marker's text is found is that marker. */
  lemma FirstMarkerText(pat: Pattern, s: string, m: Match)
    requires pat == ChartMarker || pat == DiagramMarker
    requires Exec(pat, s, 0) == Some(m)
    ensures IndexOf(s, m.captures[0]) == Some(m.start)
  {
    MatchTextAt(pat, s, m);
    forall q: nat | q < m.start
      ensures !OccursAt(s, m.captures[0], q)
    {
      NoTextBefore(pat, s, m, q);
    }
    IndexOfFirst(s, m.captures[0], m.start);
  }

  /** The text of the match `exec` returns occurs where the match starts. */
  lemma MatchTextAt(pat: Pattern, s: string, m: Match)
    requires Exec(pat, s, 0) == Some(m)
    ensures |m.captures| > 0 && OccursAt(s, m.captures[0], m.start)
    ensures m.start <= m.end <= |s| && |m.captures[0]| == m.end - m.start
  {
    ExecFound(pat, s, 0);
    assert m.captures[0] == s[m.start..m.end];
  }
}
