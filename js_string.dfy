/** The JavaScript string operations the services rely on: the character classes
    of regular expressions, `trim`, `indexOf`, `replace` with a string pattern and
    ASCII case mapping. Strings are sequences of code points. */
module JsString {
  import opened Common

  /** `\s` in a regular expression; also exactly the set `String.prototype.trim`
      removes (WhiteSpace and LineTerminator code points). */
  predicate IsSpace(c: char) {
    var n := c as int;
    n == 0x09 || n == 0x0A || n == 0x0B || n == 0x0C || n == 0x0D || n == 0x20 ||
    n == 0xA0 || n == 0x1680 || (0x2000 <= n <= 0x200A) || n == 0x2028 ||
    n == 0x2029 || n == 0x202F || n == 0x205F || n == 0x3000 || n == 0xFEFF
  }

  /** `\d` */
  predicate IsDigit(c: char) {
    '0' <= c <= '9'
  }

  /** `\w` */
  predicate IsWordChar(c: char) {
    'a' <= c <= 'z' || 'A' <= c <= 'Z' || IsDigit(c) || c == '_'
  }

  /** The character classes the scanners below step over. */
  datatype CharClass = Space | Digit | Word | Slash | NotSlash | NotDot

  predicate In(c: char, cls: CharClass) {
    match cls
    case Space => IsSpace(c)
    case Digit => IsDigit(c)
    case Word => IsWordChar(c)
    case Slash => c == '/'
    case NotSlash => c != '/'
    case NotDot => c != '.'
  }

  predicate AllIn(s: string, cls: CharClass) {
    forall k :: 0 <= k < |s| ==> In(s[k], cls)
  }

  /** End of the longest run of characters of class `cls` that starts at `i`:
      where a greedy `cls*` starting at `i` stops. */
  function RunEnd(s: string, i: nat, cls: CharClass): (j: nat)
    requires i <= |s|
    ensures i <= j <= |s|
    ensures j < |s| ==> !In(s[j], cls)
    decreases |s| - i
  {
    if i < |s| && In(s[i], cls) then RunEnd(s, i + 1, cls) else i
  }

  /** Every character of the run is of class `cls`. Stated apart from `RunEnd` so
      that the quantifier is only in scope where a proof asks for it. */
  lemma {:induction false} RunEndAll(s: string, i: nat, cls: CharClass)
    requires i <= |s|
    ensures forall k :: i <= k < RunEnd(s, i, cls) ==> In(s[k], cls)
    decreases |s| - i
  {
    if i < |s| && In(s[i], cls) {
      RunEndAll(s, i + 1, cls);
    }
  }

  /** The run is where it visibly ends. */
  lemma {:induction false} RunEndIs(s: string, i: nat, j: nat, cls: CharClass)
    requires i <= j <= |s|
    requires forall k :: i <= k < j ==> In(s[k], cls)
    requires j < |s| ==> !In(s[j], cls)
    ensures RunEnd(s, i, cls) == j
    decreases j - i
  {
    if i < j {
      RunEndIs(s, i + 1, j, cls);
    }
  }

  /** A run given as a slice whose every character is of class `cls`, ended by the
      end of `s` or by a character that does not. */
  lemma RunEndSlice(s: string, i: nat, j: nat, cls: CharClass)
    requires i <= j <= |s|
    requires AllIn(s[i..j], cls)
    requires j < |s| ==> !In(s[j], cls)
    ensures RunEnd(s, i, cls) == j
  {
    forall k | i <= k < j
      ensures In(s[k], cls)
    {
      assert s[k] == s[i..j][k - i];
    }
    RunEndIs(s, i, j, cls);
  }

  /** Start of the longest run of characters of class `cls` that ends at `j`
      and does not reach below `lo`. */
  function RunStart(s: string, lo: nat, j: nat, cls: CharClass): (k: nat)
    requires lo <= j <= |s|
    ensures lo <= k <= j
    ensures k > lo ==> !In(s[k - 1], cls)
    decreases j
  {
    if j > lo && In(s[j - 1], cls) then RunStart(s, lo, j - 1, cls) else j
  }

  /** Every character of the run is of class `cls`. */
  lemma {:induction false} RunStartAll(s: string, lo: nat, j: nat, cls: CharClass)
    requires lo <= j <= |s|
    ensures forall m :: RunStart(s, lo, j, cls) <= m < j ==> In(s[m], cls)
    decreases j
  {
    if j > lo && In(s[j - 1], cls) {
      RunStartAll(s, lo, j - 1, cls);
    }
  }

  /** Number of leading white-space characters, which `trim` removes. */
  function TrimStart(s: string): nat
    ensures TrimStart(s) <= |s|
  {
    RunEnd(s, 0, Space)
  }

  /** `String.prototype.trim`: the infix of `s` left after removing all leading and
      trailing white space. */
  function Trim(s: string): (r: string)
    ensures TrimStart(s) + |r| <= |s|
    ensures r == s[TrimStart(s)..TrimStart(s) + |r|]
    ensures r == [] || (!IsSpace(r[0]) && !IsSpace(r[|r| - 1]))
  {
    var i := RunEnd(s, 0, Space);
    var k := RunStart(s, 0, |s|, Space);
    RunEndAll(s, 0, Space);
    RunStartAll(s, 0, |s|, Space);
    if i <= k then s[i..k] else []
  }

  /** What `trim` removes is white space, at both ends. */
  lemma TrimRemovesSpace(s: string)
    ensures forall k :: 0 <= k < TrimStart(s) ==> IsSpace(s[k])
    ensures forall k :: TrimStart(s) + |Trim(s)| <= k < |s| ==> IsSpace(s[k])
  {
    RunEndAll(s, 0, Space);
    RunStartAll(s, 0, |s|, Space);
  }

  /** Text that has no white space at either end is its own trim; in particular
      a run of word characters. */
  lemma TrimUnspaced(s: string)
    requires s == [] || (!IsSpace(s[0]) && !IsSpace(s[|s| - 1]))
    ensures Trim(s) == s
  {
    var r := Trim(s);
    if s != [] {
      assert TrimStart(s) == 0;
    }
  }

  /** `trim` is idempotent. */
  lemma TrimIdempotent(s: string)
    ensures Trim(Trim(s)) == Trim(s)
  {
    TrimUnspaced(Trim(s));
  }

  /** `trim` keeps only characters of its input. */
  lemma TrimKeeps(s: string, c: char)
    requires c !in s
    ensures c !in Trim(s)
  {
    var r := Trim(s);
    var i := TrimStart(s);
    forall k | 0 <= k < |r|
      ensures r[k] != c
    {
      assert r[k] == s[i + k];
    }
  }

  predicate OccursAt(s: string, pat: string, i: nat) {
    i + |pat| <= |s| && s[i..i + |pat|] == pat
  }

  /** `s.indexOf(pat, from)`: the first position at or after `from` where `pat`
      occurs. */
  function IndexFrom(s: string, pat: string, from: nat): (r: Option<nat>)
    requires from <= |s|
    ensures r.Some? ==> from <= r.value && OccursAt(s, pat, r.value)
    ensures forall i :: from <= i && (r.None? || i < r.value) ==> !OccursAt(s, pat, i)
    decreases |s| - from
  {
    if from + |pat| > |s| then None
    else if s[from..from + |pat|] == pat then Some(from)
    else IndexFrom(s, pat, from + 1)
  }

  /** An occurrence with none before it is the one `indexOf` finds. */
  lemma IndexOfFirst(s: string, pat: string, p: nat)
    requires OccursAt(s, pat, p)
    requires forall q :: 0 <= q < p ==> !OccursAt(s, pat, q)
    ensures IndexOf(s, pat) == Some(p)
  {
  }

  /** A one-character pattern occurs exactly where that character is. */
  lemma OccursChar(s: string, c: char, i: nat)
    ensures OccursAt(s, [c], i) <==> i < |s| && s[i] == c
  {
    if i < |s| {
      assert s[i..i + 1] == [s[i]];
    }
  }

  /** A character is found where it first occurs from `from` on. */
  lemma {:induction false} IndexCharIs(s: string, c: char, from: nat, j: nat)
    requires from <= j < |s| && s[j] == c
    requires forall k :: from <= k < j ==> s[k] != c
    ensures IndexFrom(s, [c], from) == Some(j)
    decreases j - from
  {
    OccursChar(s, c, from);
    if from < j {
      IndexCharIs(s, c, from + 1, j);
    }
  }

  function IndexOf(s: string, pat: string): Option<nat> {
    IndexFrom(s, pat, 0)
  }

  /** The text `replace` inserts for a replacement string when the pattern is a
      string (GetSubstitution of ECMA-262 with no capture groups): `$$` stands
      for `$`, `$&` for the matched text, `$\`` for the text before the match and
      `$'` for the text after it; every other character, any other `$` included,
      is copied. */
  function Substitution(template: string, matched: string, before: string, after: string): string
    decreases |template|
  {
    if template == [] then []
    else if |template| >= 2 && template[0] == '$' && template[1] in "$&`'" then
      var inserted := match template[1]
        case '$' => "$"
        case '&' => matched
        case '`' => before
        case _ => after;
      inserted + Substitution(template[2..], matched, before, after)
    else [template[0]] + Substitution(template[1..], matched, before, after)
  }

  lemma {:induction false} SubstitutionLiteral(template: string, matched: string, before: string, after: string)
    requires '$' !in template
    ensures Substitution(template, matched, before, after) == template
    decreases |template|
  {
    if template != [] {
      assert template[0] != '$';
      SubstitutionLiteral(template[1..], matched, before, after);
      assert template == [template[0]] + template[1..];
    }
  }

  /** `s` with the `n` characters at `p` replaced by `ins`. */
  function Splice(s: string, p: nat, n: nat, ins: string): string
    requires p + n <= |s|
  {
    s[..p] + ins + s[p + n..]
  }

  /** `s.replace(pat, rep)` with a string pattern: only the first occurrence is
      replaced, and `rep` is read as a replacement template. */
  function ReplaceFirst(s: string, pat: string, rep: string): (r: string)
    ensures IndexOf(s, pat).None? ==> r == s
    ensures IndexOf(s, pat).Some? && '$' !in rep ==>
      IndexOf(s, pat).value + |pat| <= |s| && r == Splice(s, IndexOf(s, pat).value, |pat|, rep)
  {
    match IndexOf(s, pat)
    case None => s
    case Some(p) =>
      SubstitutionLiteralIfPlain(rep, pat, s[..p], s[p + |pat|..]);
      Splice(s, p, |pat|, Substitution(rep, pat, s[..p], s[p + |pat|..]))
  }

  lemma SubstitutionLiteralIfPlain(template: string, matched: string, before: string, after: string)
    ensures '$' !in template ==> Substitution(template, matched, before, after) == template
  {
    if '$' !in template {
      SubstitutionLiteral(template, matched, before, after);
    }
  }

  lemma OccursAfterPrefix(x: string, y: string, pat: string, i: nat)
    ensures OccursAt(x + y, pat, |x| + i) == OccursAt(y, pat, i)
  {
    if |x| + i + |pat| <= |x + y| {
      assert (x + y)[|x| + i..|x| + i + |pat|] == y[i..i + |pat|];
    }
  }

  /** A pattern that cannot occur starting inside `x` is looked for, and replaced,
      in what follows `x` (for a replacement without `$`, whose `$\`` would
      otherwise see `x`). */
  lemma ReplaceFirstAfter(x: string, y: string, pat: string, rep: string)
    requires '$' !in rep
    requires forall i :: 0 <= i < |x| ==> !OccursAt(x + y, pat, i)
    ensures ReplaceFirst(x + y, pat, rep) == x + ReplaceFirst(y, pat, rep)
  {
    IndexAfterPrefix(x, y, pat);
    if IndexOf(y, pat).Some? {
      ReplaceShifted(x, y, pat, rep, IndexOf(y, pat).value);
    }
  }

  /** The replacement in `x + y` of an occurrence found `|x|` further on than
      in `y`. */
  lemma ReplaceShifted(x: string, y: string, pat: string, rep: string, k: nat)
    requires '$' !in rep
    requires IndexOf(y, pat) == Some(k) && IndexOf(x + y, pat) == Some(|x| + k)
    ensures ReplaceFirst(x + y, pat, rep) == x + ReplaceFirst(y, pat, rep)
  {
    ReplaceFirstAt(x + y, pat, rep, |x| + k);
    ReplaceFirstAt(y, pat, rep, k);
    ShiftedSplice(x, y, rep, k, |pat|);
  }

  /** The first occurrence, found at `p`, is what a replacement without `$`
      overwrites. */
  lemma ReplaceFirstAt(s: string, pat: string, rep: string, p: nat)
    requires '$' !in rep && IndexOf(s, pat) == Some(p)
    ensures p + |pat| <= |s| && ReplaceFirst(s, pat, rep) == Splice(s, p, |pat|, rep)
  {
  }

  /** Whatever the replacement string, `replace` splices the text it inserts
      over the first occurrence. */
  lemma ReplaceFirstSplice(s: string, pat: string, rep: string) returns (p: nat, ins: string)
    requires IndexOf(s, pat).Some?
    ensures IndexOf(s, pat) == Some(p) && p + |pat| <= |s|
    ensures ReplaceFirst(s, pat, rep) == Splice(s, p, |pat|, ins)
  {
    p := IndexOf(s, pat).value;
    ins := Substitution(rep, pat, s[..p], s[p + |pat|..]);
  }

  /** An occurrence clear of the spliced span is still there afterwards,
      shifted by the change in length when it lies behind the span. */
  lemma SpliceKeeps(s: string, p: nat, n: nat, ins: string, t: string, h: nat) returns (h2: nat)
    requires p + n <= |s| && OccursAt(s, t, h)
    requires p + n <= h || h + |t| <= p
    ensures OccursAt(Splice(s, p, n, ins), t, h2)
  {
    var r := Splice(s, p, n, ins);
    if h + |t| <= p {
      h2 := h;
      forall k | 0 <= k < |t| ensures r[h + k] == t[k] {
        assert s[h..h + |t|][k] == s[h + k];
      }
      assert r[h..h + |t|] == t;
    } else {
      h2 := h - n + |ins|;
      assert |r| == |s| - n + |ins|;
      forall k | 0 <= k < |t| ensures r[h2 + k] == t[k] {
        assert s[h..h + |t|][k] == s[h + k];
      }
      assert r[h2..h2 + |t|] == t;
    }
  }

  /** Splicing into `x + y` over a span inside `y`. */
  lemma ShiftedSplice(x: string, y: string, rep: string, k: nat, n: nat)
    requires k + n <= |y|
    ensures Splice(x + y, |x| + k, n, rep) == x + Splice(y, k, n, rep)
  {
    ConcatSlices(x, y, k, k + n);
    SeqAssoc(x, y[..k], rep, y[k + n..]);
  }

  lemma SeqAssoc(a: string, b: string, c: string, d: string)
    ensures (a + b) + c + d == a + (b + c + d)
  {
  }

  /** Slicing `x + y` at points inside `y`. */
  lemma ConcatSlices(x: string, y: string, a: nat, b: nat)
    requires a <= b <= |y|
    ensures (x + y)[..|x| + a] == x + y[..a]
    ensures (x + y)[|x| + b..] == y[b..]
  {
  }

  /** Where nothing starting inside `x` is an occurrence, the first occurrence in
      `x + y` is the first one in `y`, moved along by `|x|`. */
  lemma IndexAfterPrefix(x: string, y: string, pat: string)
    requires forall i :: 0 <= i < |x| ==> !OccursAt(x + y, pat, i)
    ensures IndexOf(y, pat).None? ==> IndexOf(x + y, pat).None?
    ensures IndexOf(y, pat).Some? ==> IndexOf(x + y, pat) == Some(|x| + IndexOf(y, pat).value)
  {
    var p := IndexOf(x + y, pat);
    var q := IndexOf(y, pat);
    if p.Some? {
      OccursAfterPrefix(x, y, pat, p.value - |x|);
    }
    if q.Some? {
      OccursAfterPrefix(x, y, pat, q.value);
    }
  }

  /** `pat` found at the very start is replaced there. */
  lemma ReplaceFirstAtStart(pat: string, y: string, rep: string)
    requires '$' !in rep
    ensures ReplaceFirst(pat + y, pat, rep) == rep + y
  {
    var s := pat + y;
    assert s[0..|pat|] == pat;
    assert IndexOf(s, pat) == Some(0);
    assert s[|pat|..] == y;
  }

  function LowerChar(c: char): char {
    if 'A' <= c <= 'Z' then (c as int + 32) as char else c
  }

  function UpperChar(c: char): char {
    if 'a' <= c <= 'z' then (c as int - 32) as char else c
  }

  /** `toLowerCase`, for the ASCII letters. */
  function ToLower(s: string): (r: string)
    ensures |r| == |s|
    ensures forall i :: 0 <= i < |s| ==> r[i] == LowerChar(s[i])
  {
    seq(|s|, i requires 0 <= i < |s| => LowerChar(s[i]))
  }

  /** `name.charAt(0).toUpperCase() + name.slice(1)`, for ASCII letters. */
  function Capitalize(name: string): (r: string)
    ensures |r| == |name|
    ensures name != [] ==> r[0] == UpperChar(name[0]) && r[1..] == name[1..]
  {
    if name == [] then [] else [UpperChar(name[0])] + name[1..]
  }

  /** Number of times `c` occurs in `s`. */
  function Count(s: string, c: char): nat {
    multiset(s)[c]
  }

  /** `s.split(sep)` for a one-character separator: the pieces between its
      occurrences, so one more piece than there are separators. */
  function Split(s: string, sep: char): (r: seq<string>)
    ensures |r| >= 1
    decreases |s|
  {
    if s == [] then [[]]
    else
      var rest := Split(s[1..], sep);
      if s[0] == sep then [[]] + rest else [[s[0]] + rest[0]] + rest[1..]
  }

  /** `pieces.join(sep)` */
  function JoinOn(pieces: seq<string>, sep: char): string
    decreases |pieces|
  {
    if pieces == [] then []
    else if |pieces| == 1 then pieces[0]
    else pieces[0] + [sep] + JoinOn(pieces[1..], sep)
  }

  /** Splitting loses nothing: no piece holds the separator, and joining the
      pieces with it gives back the text. */
  lemma {:induction false} SplitJoin(s: string, sep: char)
    ensures JoinOn(Split(s, sep), sep) == s
    ensures forall k :: 0 <= k < |Split(s, sep)| ==> sep !in Split(s, sep)[k]
    decreases |s|
  {
    if s != [] {
      var rest := Split(s[1..], sep);
      SplitJoin(s[1..], sep);
      if s[0] == sep {
        assert ([[]] + rest)[1..] == rest;
        assert s == [] + [sep] + JoinOn(rest, sep);
      } else {
        var r := [[s[0]] + rest[0]] + rest[1..];
        assert r[1..] == rest[1..];
        assert forall k :: 1 <= k < |r| ==> r[k] == rest[k];
        if |rest| > 1 {
          assert JoinOn(rest, sep) == rest[0] + [sep] + JoinOn(rest[1..], sep);
        }
      }
    }
  }

  lemma {:induction false} SplitCount(s: string, sep: char)
    ensures |Split(s, sep)| == Count(s, sep) + 1
    decreases |s|
  {
    if s != [] {
      SplitCount(s[1..], sep);
      assert s == [s[0]] + s[1..];
      assert multiset(s) == multiset([s[0]]) + multiset(s[1..]);
    }
  }

  /** The last piece is the text after the last separator, or the whole text
      when there is none. */
  lemma {:induction false} SplitLast(s: string, sep: char)
    ensures var r := Split(s, sep); var last := r[|r| - 1];
      |last| <= |s| && s[|s| - |last|..] == last &&
      (|r| == 1 <==> |last| == |s|) &&
      (|r| > 1 ==> s[|s| - |last| - 1] == sep)
    decreases |s|
  {
    if s != [] {
      var rest := Split(s[1..], sep);
      SplitLast(s[1..], sep);
      var last := rest[|rest| - 1];
      assert s[1..][|s[1..]| - |last|..] == s[|s| - |last|..];
      if s[0] == sep {
        assert Split(s, sep) == [[]] + rest;
      } else {
        var r := [[s[0]] + rest[0]] + rest[1..];
        assert Split(s, sep) == r;
        if |rest| == 1 {
          assert s == [s[0]] + s[1..];
        } else {
          assert r[|r| - 1] == last;
        }
      }
    }
  }
}
