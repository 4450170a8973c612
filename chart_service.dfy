/** The chart service's own logic: pulling labelled numbers out of free text,
    choosing a chart type from the size of a series, the default colour palette,
    the axis configuration and the Chart.js data objects for bar, line and pie
    charts. Rendering charts to images and writing files are not modelled. */
module ChartService {
  import opened Common
  import opened JsString
  import opened Regex

  // ---------------------------------------------------------------------------
  // Numbers in text

  function DigitValue(c: char): nat {
    if IsDigit(c) then c as int - '0' as int else 0
  }

  /** The value of a string of decimal digits. */
  function DigitsValue(ds: string): nat
    decreases |ds|
  {
    if ds == [] then 0 else 10 * DigitsValue(ds[..|ds| - 1]) + DigitValue(ds[|ds| - 1])
  }

  function Pow10(n: nat): (r: nat)
    ensures r >= 1
  {
    if n == 0 then 1 else 10 * Pow10(n - 1)
  }

  /** A non-negative decimal number `digits / 10^scale`, as written: "12.50" is
      `Decimal(1250, 2)`. */
  datatype Decimal = Decimal(digits: nat, scale: nat)

  /** The number a decimal stands for. */
  function Value(d: Decimal): (v: real)
    ensures v >= 0.0
  {
    DivNonNegative(d.digits as real, Pow10(d.scale) as real);
    (d.digits as real) / (Pow10(d.scale) as real)
  }

  lemma DivNonNegative(a: real, b: real)
    requires a >= 0.0 && b > 0.0
    ensures a / b >= 0.0
  {
  }

  /** `parseFloat` of a numeral `\d+(?:\.\d+)?`: the digits with the '.' left out,
      scaled by the number of fraction digits. The value is exact; rounding to
      the nearest double is not modelled. */
  function ParseNumeral(t: string): Decimal {
    var d := RunEnd(t, 0, Digit);
    if d + 1 < |t| && t[d] == '.' then
      Decimal(DigitsValue(t[..d]) * Pow10(|t| - d - 1) + DigitsValue(t[d + 1..]), |t| - d - 1)
    else Decimal(DigitsValue(t[..d]), 0)
  }

  lemma ShiftDigit(x: int, p: int, y: int, d: int)
    ensures 10 * (x * p + y) + d == x * (10 * p) + (10 * y + d)
  {
  }

  /** The value of digits written one after the other. */
  lemma {:induction false} DigitsValueAppend(a: string, b: string)
    ensures DigitsValue(a + b) == DigitsValue(a) * Pow10(|b|) + DigitsValue(b)
    decreases |b|
  {
    if b == [] {
      assert a + b == a;
    } else {
      var b' := b[..|b| - 1];
      var last := DigitValue(b[|b| - 1]);
      assert (a + b)[..|a + b| - 1] == a + b';
      assert (a + b)[|a + b| - 1] == b[|b| - 1];
      DigitsValueAppend(a, b');
      var x, p, y := DigitsValue(a), Pow10(|b'|), DigitsValue(b');
      assert DigitsValue(a + b) == 10 * (x * p + y) + last;
      ShiftDigit(x, p, y, last);
      assert Pow10(|b|) == 10 * p && DigitsValue(b) == 10 * y + last;
    }
  }

  /** A numeral with a fraction part is read as all its digits over a power of
      ten for each fraction digit: "12.50" is 1250 / 10^2. */
  lemma ParseFraction(a: string, b: string)
    requires a != [] && AllIn(a, Digit) && b != [] && AllIn(b, Digit)
    ensures ParseNumeral(a + "." + b) == Decimal(DigitsValue(a + b), |b|)
  {
    var t := a + "." + b;
    assert t[..|a|] == a && t[|a|] == '.' && t[|a| + 1..] == b;
    RunEndSlice(t, 0, |a|, Digit);
    DigitsValueAppend(a, b);
  }

  // ---------------------------------------------------------------------------
  // extractDataFromText

  /** One `{ label, value }` entry of the extracted data; `name` is its `label`. */
  datatype Datum = Datum(name: string, value: Decimal)

  /** The object `extractDataFromText` returns. Its `tables` list is declared but
      never filled. */
  datatype ExtractedData = ExtractedData(keyValue: seq<Datum>, tables: seq<Datum>, bullets: seq<Datum>)

  /** `{ label: match[1].trim(), value: parseFloat(match[2]) }` for the capture
      array `g` of a match with two groups. */
  function ToDatum(g: seq<string>): Datum
    requires |g| == 3
  {
    Datum(Trim(g[1]), ParseNumeral(g[2]))
  }

  predicate TwoGroups(gs: seq<seq<string>>) {
    forall i :: 0 <= i < |gs| ==> |gs[i]| == 3
  }

  /** The entries pushed for the capture arrays `gs`, in order. */
  function Data(gs: seq<seq<string>>): (r: seq<Datum>)
    requires TwoGroups(gs)
  {
    seq(|gs|, i requires 0 <= i < |gs| => ToDatum(gs[i]))
  }

  lemma DataCons(g: seq<string>, rest: seq<seq<string>>)
    requires |g| == 3 && TwoGroups(rest)
    ensures TwoGroups([g] + rest)
    ensures Data([g] + rest) == [ToDatum(g)] + Data(rest)
  {
    var a := Data([g] + rest);
    var b := [ToDatum(g)] + Data(rest);
    forall i | 0 <= i < |a|
      ensures a[i] == b[i]
    {
      if i > 0 {
        assert ([g] + rest)[i] == rest[i - 1];
      }
    }
  }

  /** The capture arrays of the matches a scan of `pat` from `from` sees. */
  function Groups(pat: Pattern, text: string, from: nat): (gs: seq<seq<string>>)
    requires pat == KeyValue || pat == Bullet
    requires from <= |text|
    ensures TwoGroups(gs)
  {
    CapturesOf(MatchAll(pat, text, from))
  }

  /** One step of the scan, on capture arrays. */
  lemma GroupsStep(pat: Pattern, text: string, from: nat, m: Match)
    requires pat == KeyValue || pat == Bullet
    requires from <= |text| && Exec(pat, text, from) == Some(m)
    ensures |m.captures| == 3 && m.end <= |text|
    ensures Groups(pat, text, from) == [m.captures] + Groups(pat, text, m.end)
  {
    MatchAllStep(pat, text, from);
    CapturesOfCons(m, MatchAll(pat, text, m.end));
  }

  /** The entries a `while ((match = re.exec(text)) !== null) list.push(...)`
      loop collects when `re.lastIndex` starts at `from`. */
  function Collected(pat: Pattern, text: string, from: nat): seq<Datum>
    requires pat == KeyValue || pat == Bullet
    requires from <= |text|
  {
    Data(Groups(pat, text, from))
  }

  /** One step of the loop: the entry of the match `exec` returns, then what
      the loop collects from the end of that match. */
  lemma CollectedStep(pat: Pattern, text: string, from: nat, m: Match)
    requires pat == KeyValue || pat == Bullet
    requires from <= |text| && Exec(pat, text, from) == Some(m)
    ensures |m.captures| == 3 && m.end <= |text|
    ensures Collected(pat, text, from) == [ToDatum(m.captures)] + Collected(pat, text, m.end)
  {
    GroupsStep(pat, text, from, m);
    DataCons(m.captures, Groups(pat, text, m.end));
  }

  /** When `exec` finds nothing the loop collects nothing. */
  lemma CollectedNone(pat: Pattern, text: string, from: nat)
    requires pat == KeyValue || pat == Bullet
    requires from <= |text| && Exec(pat, text, from).None?
    ensures Collected(pat, text, from) == []
  {
    MatchAllStep(pat, text, from);
  }

  /** The key/value entries of `text`: one per leftmost, non-overlapping match of
      `(\w+):\s*(\d+(?:\.\d+)?)`. */
  function KeyValueData(text: string): seq<Datum> {
    Collected(KeyValue, text, 0)
  }

  /** The bullet entries of `text`: one per leftmost, non-overlapping match of
      `[-*]\s*([^:]+):\s*(\d+(?:\.\d+)?)`, scanning the whole text again. */
  function BulletData(text: string): seq<Datum> {
    Collected(Bullet, text, 0)
  }

  /** The loop `while ((match = re.exec(text)) !== null) list.push(...)` for a
      fresh global regex with two groups. */
  method CollectMatches(pat: Pattern, text: string) returns (list: seq<Datum>)
    requires pat == KeyValue || pat == Bullet
    ensures list == Collected(pat, text, 0)
  {
    list := [];
    var lastIndex := 0;
    var found := Exec(pat, text, lastIndex);
    while found.Some?
      invariant lastIndex <= |text|
      invariant found == Exec(pat, text, lastIndex)
      invariant list + Collected(pat, text, lastIndex) == Collected(pat, text, 0)
      decreases |text| - lastIndex
    {
      var m := found.value;
      CollectedStep(pat, text, lastIndex, m);
      var d := ToDatum(m.captures);
      PushStep(list, d, Collected(pat, text, m.end), Collected(pat, text, lastIndex), Collected(pat, text, 0));
      list := list + [d];
      lastIndex := m.end;
      found := Exec(pat, text, lastIndex);
    }
    CollectedNone(pat, text, lastIndex);
  }

  /** `extractDataFromText(text)`: the key/value pass and the bullet pass each
      scan the whole text; the table pattern is never applied, so `tables` is
      always empty. */
  method ExtractDataFromText(text: string) returns (r: ExtractedData)
    ensures r.tables == []
    ensures r == ExtractedData(KeyValueData(text), [], BulletData(text))
  {
    var keyValue := CollectMatches(KeyValue, text);
    var bullets := CollectMatches(Bullet, text);
    r := ExtractedData(keyValue, [], bullets);
  }

  /** Element `i` of the collected list is the entry of the i-th match, which
      is a match of the pattern. */
  lemma CollectedAt(pat: Pattern, text: string, i: nat) returns (m: Match)
    requires pat == KeyValue || pat == Bullet
    requires i < |Collected(pat, text, 0)|
    ensures Found(pat, text, m) && |m.captures| == 3
    ensures Collected(pat, text, 0)[i] == ToDatum(m.captures)
  {
    MatchAllFound(pat, text, 0);
    m := MatchAll(pat, text, 0)[i];
  }

  /** The entry of a match whose first group is a run of word characters. */
  lemma KeyValueDatum(g: seq<string>)
    requires |g| == 3 && g[1] != [] && AllIn(g[1], Word)
    ensures ToDatum(g).name == g[1]
  {
    assert IsWordChar(g[1][0]) && IsWordChar(g[1][|g[1]| - 1]);
    TrimUnspaced(g[1]);
  }

  /** The entry of a match whose first group holds no ':'. */
  lemma BulletDatum(g: seq<string>)
    requires |g| == 3 && ':' !in g[1]
    ensures Trim(ToDatum(g).name) == ToDatum(g).name
    ensures ':' !in ToDatum(g).name
  {
    TrimIdempotent(g[1]);
    TrimKeeps(g[1], ':');
  }

  lemma KeyValueItem(text: string, i: nat)
    requires i < |KeyValueData(text)|
    ensures KeyValueData(text)[i].name != [] && AllIn(KeyValueData(text)[i].name, Word)
  {
    var m := CollectedAt(KeyValue, text, i);
    KeyValueShape(text, m);
    KeyValueDatum(m.captures);
  }

  lemma BulletItem(text: string, i: nat)
    requires i < |BulletData(text)|
    ensures Trim(BulletData(text)[i].name) == BulletData(text)[i].name
    ensures ':' !in BulletData(text)[i].name
  {
    var m := CollectedAt(Bullet, text, i);
    BulletShape(text, m);
    BulletDatum(m.captures);
  }

  /** Every key/value label is a non-empty run of word characters, and every
      value a non-negative number. */
  lemma KeyValueLabels(text: string)
    ensures forall i :: 0 <= i < |KeyValueData(text)| ==>
      KeyValueData(text)[i].name != [] && AllIn(KeyValueData(text)[i].name, Word) &&
      Value(KeyValueData(text)[i].value) >= 0.0
  {
    forall i | 0 <= i < |KeyValueData(text)|
      ensures KeyValueData(text)[i].name != [] && AllIn(KeyValueData(text)[i].name, Word)
    {
      KeyValueItem(text, i);
    }
  }

  /** Every bullet label is trimmed and holds no ':'. */
  lemma BulletLabels(text: string)
    ensures forall i :: 0 <= i < |BulletData(text)| ==>
      Trim(BulletData(text)[i].name) == BulletData(text)[i].name && ':' !in BulletData(text)[i].name &&
      Value(BulletData(text)[i].value) >= 0.0
  {
    var data := BulletData(text);
    forall i | 0 <= i < |data|
      ensures Trim(data[i].name) == data[i].name && ':' !in data[i].name
    {
      BulletItem(text, i);
    }
  }

  // ---------------------------------------------------------------------------
  // Text made of "word: number" entries

  /** An entry "word: digits" as it appears in text. */
  datatype Entry = Entry(word: string, digits: string)

  predicate ValidEntry(e: Entry) {
    e.word != [] && AllIn(e.word, Word) && e.digits != [] && AllIn(e.digits, Digit)
  }

  function EntryText(e: Entry): string {
    e.word + ": " + e.digits
  }

  /** The entries written out, separated by ", ", as in "Sales: 100, Marketing: 50". */
  function EntriesText(es: seq<Entry>): string
    decreases |es|
  {
    if es == [] then ""
    else if |es| == 1 then EntryText(es[0])
    else EntryText(es[0]) + ", " + EntriesText(es[1..])
  }

  /** The capture array of the match of an entry. */
  function EntryGroups(e: Entry): seq<string> {
    [EntryText(e), e.word, e.digits]
  }

  function EntriesGroups(es: seq<Entry>): seq<seq<string>> {
    seq(|es|, i requires 0 <= i < |es| => EntryGroups(es[i]))
  }

  /** The label and value an entry stands for. */
  function EntryDatum(e: Entry): Datum {
    Datum(e.word, Decimal(DigitsValue(e.digits), 0))
  }

  function EntriesData(es: seq<Entry>): seq<Datum> {
    seq(|es|, i requires 0 <= i < |es| => EntryDatum(es[i]))
  }

  /** A numeral without a fraction part is read as its digits. */
  lemma ParseWhole(t: string)
    requires AllIn(t, Digit)
    ensures ParseNumeral(t) == Decimal(DigitsValue(t), 0)
  {
    RunEndIs(t, 0, |t|, Digit);
    assert t[..|t|] == t;
  }

  /** The entry pushed for a match whose groups are an entry's word and digits
      is the datum the entry stands for. */
  lemma EntryToDatum(e: Entry, whole: string)
    requires ValidEntry(e)
    ensures ToDatum([whole, e.word, e.digits]) == EntryDatum(e)
  {
    assert IsWordChar(e.word[0]) && IsWordChar(e.word[|e.word| - 1]);
    TrimUnspaced(e.word);
    ParseWhole(e.digits);
  }

  lemma EntriesToData(es: seq<Entry>)
    requires forall i :: 0 <= i < |es| ==> ValidEntry(es[i])
    ensures TwoGroups(EntriesGroups(es))
    ensures Data(EntriesGroups(es)) == EntriesData(es)
  {
    var gs := EntriesGroups(es);
    forall i | 0 <= i < |es|
      ensures ToDatum(gs[i]) == EntryDatum(es[i])
    {
      EntryToDatum(es[i], EntryText(es[i]));
    }
  }

  /** Entry `e` is written in `s` from `from` up to `q`. */
  predicate EntryAt(s: string, from: nat, e: Entry, q: nat) {
    ValidEntry(e) && q == from + |EntryText(e)| && q <= |s| && s[from..q] == EntryText(e)
  }

  /** ", " is written in `s` at `q`. */
  predicate SeparatorAt(s: string, q: nat) {
    q + 2 <= |s| && s[q] == ',' && s[q + 1] == ' '
  }

  /** An entry that ends the text or is followed by ',' is the match `exec`
      finds where it starts. */
  lemma EntryMatch(s: string, from: nat, e: Entry, q: nat) returns (m: Match)
    requires EntryAt(s, from, e, q) && (q < |s| ==> s[q] == ',')
    ensures from <= |s| && Exec(KeyValue, s, from) == Some(m)
    ensures m.end == q && m.captures == EntryGroups(e)
  {
    m := Match(from, q, EntryGroups(e));
    KeyValueAtEntry(s, from, e.word, e.digits);
  }

  /** The ", " between two entries matches nothing. */
  lemma SkipSeparator(s: string, q: nat)
    requires SeparatorAt(s, q)
    ensures Exec(KeyValue, s, q) == Exec(KeyValue, s, q + 2)
  {
    RunEndIs(s, q, q, Word);
    RunEndIs(s, q + 1, q + 1, Word);
  }

  lemma GroupsNext(s: string, from: nat, e: Entry, q: nat)
    requires EntryAt(s, from, e, q) && SeparatorAt(s, q)
    ensures Groups(KeyValue, s, from) == [EntryGroups(e)] + Groups(KeyValue, s, q + 2)
  {
    var m := EntryMatch(s, from, e, q);
    GroupsStep(KeyValue, s, from, m);
    SkipSeparator(s, q);
    GroupsSame(KeyValue, s, q, q + 2);
  }

  /** Scans that `exec` starts alike collect alike. */
  lemma GroupsSame(pat: Pattern, s: string, p: nat, q: nat)
    requires pat == KeyValue || pat == Bullet
    requires p <= |s| && q <= |s| && Exec(pat, s, p) == Exec(pat, s, q)
    ensures Groups(pat, s, p) == Groups(pat, s, q)
  {
    MatchAllSame(pat, s, p, q);
  }

  lemma GroupsLast(s: string, from: nat, e: Entry)
    requires EntryAt(s, from, e, |s|)
    ensures Groups(KeyValue, s, from) == [EntryGroups(e)]
  {
    var m := EntryMatch(s, from, e, |s|);
    GroupsStep(KeyValue, s, from, m);
    RunEndIs(s, |s|, |s|, Word);
    MatchAllStep(KeyValue, s, |s|);
  }

  /** Where text "t, u" starts at `from`, `t` ends at `q` and `u` starts at `q + 2`. */
  lemma SplitAtSeparator(s: string, from: nat, t: string, u: string)
    requires from <= |s| && s[from..] == t + ", " + u
    ensures SeparatorAt(s, from + |t|)
    ensures s[from..from + |t|] == t && s[from + |t| + 2..] == u
  {
    assert s[from..from + |t|] == s[from..][..|t|];
    assert s[from + |t|] == s[from..][|t|];
    assert s[from + |t| + 1] == s[from..][|t| + 1];
    assert s[from + |t| + 2..] == s[from..][|t| + 2..];
  }

  lemma GroupsCons(es: seq<Entry>)
    requires es != []
    ensures EntriesGroups(es) == [EntryGroups(es[0])] + EntriesGroups(es[1..])
  {
    var a := EntriesGroups(es);
    var b := [EntryGroups(es[0])] + EntriesGroups(es[1..]);
    forall i | 0 <= i < |a|
      ensures a[i] == b[i]
    {
      if i > 0 {
        assert es[1..][i - 1] == es[i];
      }
    }
  }

  /** The valid entries `es` are written in `s` from `from` to its end,
      separated by ", ". */
  predicate Written(s: string, from: nat, es: seq<Entry>)
    decreases |es|
  {
    if es == [] then from == |s|
    else
      var q := from + |EntryText(es[0])|;
      if |es| == 1 then EntryAt(s, from, es[0], |s|)
      else EntryAt(s, from, es[0], q) && SeparatorAt(s, q) && Written(s, q + 2, es[1..])
  }

  /** `EntriesText(es)` writes `es` in that form. */
  lemma {:induction false} EntriesWritten(s: string, from: nat, es: seq<Entry>)
    requires from <= |s| && s[from..] == EntriesText(es)
    requires forall i :: 0 <= i < |es| ==> ValidEntry(es[i])
    ensures Written(s, from, es)
    decreases |es|
  {
    if es == [] {
      assert |s[from..]| == 0;
    } else if |es| == 1 {
      assert s[from..from + |EntryText(es[0])|] == s[from..];
    } else {
      var t := EntryText(es[0]);
      var u := EntriesText(es[1..]);
      assert EntriesText(es) == t + ", " + u;
      SplitAtSeparator(s, from, t, u);
      TailValid(es);
      EntriesWritten(s, from + |t| + 2, es[1..]);
      assert EntryAt(s, from, es[0], from + |t|);
    }
  }

  lemma TailValid(es: seq<Entry>)
    requires es != [] && forall i :: 0 <= i < |es| ==> ValidEntry(es[i])
    ensures ValidEntry(es[0]) && forall i :: 0 <= i < |es[1..]| ==> ValidEntry(es[1..][i])
  {
    forall i | 0 <= i < |es[1..]| ensures ValidEntry(es[1..][i]) {
      assert es[1..][i] == es[i + 1];
    }
  }

  lemma ScanEmpty(s: string)
    ensures Groups(KeyValue, s, |s|) == EntriesGroups([])
  {
    RunEndIs(s, |s|, |s|, Word);
    MatchAllStep(KeyValue, s, |s|);
    assert |EntriesGroups([])| == 0;
  }

  lemma ScanSingle(s: string, from: nat, es: seq<Entry>)
    requires |es| == 1 && EntryAt(s, from, es[0], |s|)
    ensures Groups(KeyValue, s, from) == EntriesGroups(es)
  {
    GroupsLast(s, from, es[0]);
    GroupsCons(es);
    assert |EntriesGroups(es[1..])| == 0;
  }

  lemma ScanMore(s: string, from: nat, es: seq<Entry>, q: nat)
    requires es != [] && EntryAt(s, from, es[0], q) && SeparatorAt(s, q)
    requires Groups(KeyValue, s, q + 2) == EntriesGroups(es[1..])
    ensures Groups(KeyValue, s, from) == EntriesGroups(es)
  {
    GroupsNext(s, from, es[0], q);
    GroupsCons(es);
  }

  /** Entries written in this form are scanned into one match per entry, in
      order, whatever precedes them. */
  lemma {:induction false} ScanEntries(s: string, from: nat, es: seq<Entry>)
    requires from <= |s| && Written(s, from, es)
    ensures Groups(KeyValue, s, from) == EntriesGroups(es)
    decreases |es|
  {
    if es == [] {
      ScanEmpty(s);
    } else if |es| == 1 {
      ScanSingle(s, from, es);
    } else {
      var q := from + |EntryText(es[0])|;
      ScanEntries(s, q + 2, es[1..]);
      ScanMore(s, from, es, q);
    }
  }

  /** The key/value data of such a text: one datum per entry, in order. */
  lemma KeyValueEntries(es: seq<Entry>)
    requires forall i :: 0 <= i < |es| ==> ValidEntry(es[i])
    ensures KeyValueData(EntriesText(es)) == EntriesData(es)
  {
    var s := EntriesText(es);
    assert s[0..] == s;
    EntriesWritten(s, 0, es);
    ScanEntries(s, 0, es);
    EntriesToData(es);
  }

  lemma SalesText()
    ensures EntriesText(SalesEntries()) == "Sales: 100, Marketing: 50"
  {
    var es := SalesEntries();
    assert es[1..] == [Entry("Marketing", "50")];
  }

  lemma SalesValues()
    ensures DigitsValue("100") == 100 && DigitsValue("50") == 50
  {
    assert "100"[..2] == "10" && "10"[..1] == "1" && "1"[..0] == "";
    assert "50"[..1] == "5" && "5"[..0] == "";
  }

  // ---------------------------------------------------------------------------
  // A bullet line

  /** Where the pieces of "- word: digits" are. */
  lemma BulletLinePieces(s: string, e: Entry)
    requires ValidEntry(e) && s == "- " + EntryText(e)
    ensures |s| == 4 + |e.word| + |e.digits|
    ensures s[0] == '-' && s[1] == ' ' && s[2 + |e.word|] == ':' && s[3 + |e.word|] == ' '
    ensures s[2..2 + |e.word|] == e.word && s[4 + |e.word|..] == e.digits
    ensures s[0..|s|] == s && !IsSpace(s[2]) && !IsSpace(s[4 + |e.word|])
    ensures forall k :: 1 <= k < 2 + |e.word| ==> s[k] != ':'
  {
    var w, n := e.word, e.digits;
    var c := 2 + |w|;
    assert s[2..c] == w && s[c + 2..] == n;
    assert s[2] == w[0] && s[c + 2] == n[0];
    forall k | 1 <= k < c
      ensures s[k] != ':'
    {
      if k >= 2 {
        assert s[k] == w[k - 2];
      }
    }
  }

  /** `- word: digits` matches the bullet pattern as a whole, with the word and
      the digits as its groups. */
  lemma BulletAtLine(s: string, e: Entry)
    requires ValidEntry(e) && s == "- " + EntryText(e)
    ensures BulletAt(s, 0) == Some(Match(0, |s|, [s, e.word, e.digits]))
  {
    BulletLinePieces(s, e);
    var c := 2 + |e.word|;
    IndexCharIs(s, ':', 1, c);
    RunEndIs(s, 1, 2, Space);
    RunEndIs(s, c + 1, c + 2, Space);
    RunEndSlice(s, c + 2, |s|, Digit);
    NumeralAfterParts(s, c + 1, c + 2, |s|);
    BulletAtParts(s, 0, c, 2, c + 2, |s|, s, e.word, e.digits);
  }

  /** Neither the key/value pattern nor the bullet pattern matches at the end of
      the text. */
  lemma NothingAtEnd(pat: Pattern, s: string)
    requires pat == KeyValue || pat == Bullet
    ensures Groups(pat, s, |s|) == []
  {
    RunEndIs(s, |s|, |s|, Word);
    MatchAllStep(pat, s, |s|);
  }

  /** The bullet pass finds the line once. */
  lemma BulletLineGroups(s: string, e: Entry)
    requires ValidEntry(e) && s == "- " + EntryText(e)
    ensures Groups(Bullet, s, 0) == [[s, e.word, e.digits]]
  {
    BulletAtLine(s, e);
    GroupsStep(Bullet, s, 0, Match(0, |s|, [s, e.word, e.digits]));
    NothingAtEnd(Bullet, s);
  }

  /** The key/value pass skips "- " and finds the entry after it. */
  lemma KeyValueLineGroups(s: string, e: Entry)
    requires ValidEntry(e) && s == "- " + EntryText(e)
    ensures Groups(KeyValue, s, 0) == [EntryGroups(e)]
  {
    assert s[2..] == EntryText(e);
    RunEndIs(s, 0, 0, Word);
    RunEndIs(s, 1, 1, Word);
    assert Exec(KeyValue, s, 0) == Exec(KeyValue, s, 2);
    MatchAllSame(KeyValue, s, 0, 2);
    GroupsLast(s, 2, e);
  }

  /** A line "- word: digits" contributes its entry to both lists: the bullet
      pass scans the whole text again, independently of the key/value pass. */
  lemma BulletLineInBoth(e: Entry)
    requires ValidEntry(e)
    ensures KeyValueData("- " + EntryText(e)) == [EntryDatum(e)]
    ensures BulletData("- " + EntryText(e)) == [EntryDatum(e)]
  {
    var s := "- " + EntryText(e);
    KeyValueLineGroups(s, e);
    BulletLineGroups(s, e);
    EntryToDatum(e, s);
    EntryToDatum(e, EntryText(e));
    DataCons(EntryGroups(e), []);
    DataCons([s, e.word, e.digits], []);
  }

  /** "- X: 5" yields the entry X/5 in both lists. */
  lemma ExampleBullet()
    ensures KeyValueData("- X: 5") == [Datum("X", Decimal(5, 0))]
    ensures BulletData("- X: 5") == [Datum("X", Decimal(5, 0))]
  {
    var e := Entry("X", "5");
    assert ValidEntry(e);
    assert "- " + EntryText(e) == "- X: 5";
    assert DigitsValue("5") == 5 by {
      assert "5"[..0] == "";
    }
    BulletLineInBoth(e);
  }

  function SalesEntries(): seq<Entry> {
    [Entry("Sales", "100"), Entry("Marketing", "50")]
  }

  lemma SalesValid()
    ensures forall i :: 0 <= i < |SalesEntries()| ==> ValidEntry(SalesEntries()[i])
  {
    assert ValidEntry(Entry("Sales", "100"));
    assert ValidEntry(Entry("Marketing", "50"));
  }

  lemma SalesData()
    ensures EntriesData(SalesEntries()) == [Datum("Sales", Decimal(100, 0)), Datum("Marketing", Decimal(50, 0))]
  {
    SalesValues();
  }

  /** "Sales: 100, Marketing: 50" yields Sales/100 then Marketing/50. */
  lemma ExampleSales()
    ensures KeyValueData("Sales: 100, Marketing: 50") ==
      [Datum("Sales", Decimal(100, 0)), Datum("Marketing", Decimal(50, 0))]
  {
    SalesText();
    SalesValid();
    KeyValueEntries(SalesEntries());
    SalesData();
  }
  // ---------------------------------------------------------------------------
  // suggestChartType

  /** `suggestChartType(data)`: a pie for at most five values, a bar chart for
      none or for six to ten, a line chart for more. */
  function SuggestChartType<T>(data: seq<T>): (r: string)
    ensures r == "pie" <==> 1 <= |data| <= 5
    ensures r == "bar" <==> |data| == 0 || 6 <= |data| <= 10
    ensures r == "line" <==> |data| > 10
    ensures r in ["bar", "pie", "line"]
  {
    var dataSize := |data|;
    if dataSize <= 0 then "bar"
    else if dataSize <= 5 then "pie"
    else if dataSize <= 10 then "bar"
    else "line"
  }

  // ---------------------------------------------------------------------------
  // Colours

  /** The eight colours, in the order the palette cycles through them. */
  const Palette: seq<string> := ["#2563eb", "#dc2626", "#059669", "#d97706", "#7c3aed", "#db2777", "#0891b2", "#65a30d"]

  /** The list `getDefaultColors(count)` returns. */
  function DefaultColors(count: int): seq<string> {
    seq(if count < 0 then 0 else count, i requires 0 <= i => Palette[i % |Palette|])
  }

  /** `getDefaultColors(count)`: a counted loop pushing `colors[i % colors.length]`. */
  method GetDefaultColors(count: int) returns (result: seq<string>)
    ensures |result| == (if count < 0 then 0 else count)
    ensures forall i :: 0 <= i < |result| ==> result[i] == Palette[i % 8]
    ensures result == DefaultColors(count)
  {
    result := [];
    var i := 0;
    while i < count
      invariant if count < 0 then i == 0 else 0 <= i <= count
      invariant |result| == i
      invariant forall k :: 0 <= k < i ==> result[k] == Palette[k % 8]
    {
      result := result + [Palette[i % |Palette|]];
      i := i + 1;
    }
  }

  /** The palette repeats every eight entries. */
  lemma DefaultColorsCycle(count: int, i: nat)
    requires i + 8 < count
    ensures DefaultColors(count)[i + 8] == DefaultColors(count)[i]
  {
    assert (i + 8) % 8 == i % 8;
  }

  /** Asking for fewer colours gives a prefix of the longer list. */
  lemma DefaultColorsPrefix(m: int, n: int)
    requires m <= n
    ensures |DefaultColors(m)| <= |DefaultColors(n)|
    ensures DefaultColors(m) == DefaultColors(n)[..|DefaultColors(m)|]
  {
  }

  /** Every default colour is a "#rrggbb" string of the palette. */
  lemma DefaultColorsShape(count: int)
    ensures forall i :: 0 <= i < |DefaultColors(count)| ==>
      DefaultColors(count)[i] in Palette && |DefaultColors(count)[i]| == 7 && DefaultColors(count)[i][0] == '#'
  {
    forall i | 0 <= i < |DefaultColors(count)|
      ensures DefaultColors(count)[i] in Palette
      ensures |DefaultColors(count)[i]| == 7 && DefaultColors(count)[i][0] == '#'
    {
      var k := i % 8;
      assert DefaultColors(count)[i] == Palette[k];
      assert |Palette[k]| == 7 && Palette[k][0] == '#' by {
        assert k == 0 || k == 1 || k == 2 || k == 3 || k == 4 || k == 5 || k == 6 || k == 7;
      }
    }
  }

  /** `getDefaultBorderColors(count)`: each default colour with "80" appended,
      an alpha of one half in "#rrggbbaa" notation. The border colours pair
      one-to-one with the colours, and dropping the suffix recovers each. */
  function DefaultBorderColors(count: int): (r: seq<string>)
    ensures |r| == |DefaultColors(count)|
    ensures forall i :: 0 <= i < |r| ==>
      |r[i]| >= 2 && r[i][..|r[i]| - 2] == DefaultColors(count)[i] && r[i][|r[i]| - 2..] == "80"
  {
    var colors := DefaultColors(count);
    var b := seq(|colors|, i requires 0 <= i < |colors| => colors[i] + "80");
    assert forall i :: 0 <= i < |b| ==> b[i][..|b[i]| - 2] == colors[i] && b[i][|b[i]| - 2..] == "80" by {
      forall i | 0 <= i < |b|
        ensures b[i][..|b[i]| - 2] == colors[i] && b[i][|b[i]| - 2..] == "80"
      {
        assert b[i] == colors[i] + "80";
      }
    }
    b
  }

  // ---------------------------------------------------------------------------
  // getScalesConfig

  /** One axis of a Chart.js `scales` object; `beginAtZero` is absent when `None`. */
  datatype Axis = Axis(display: bool, gridDisplay: bool, beginAtZero: Option<bool>)

  datatype Scales = NoScales | Cartesian(x: Axis, y: Axis)

  /** `getScalesConfig(type)`: pie and doughnut charts have no axes; every other
      type has a displayed x axis and a displayed y axis starting at zero, both
      with their grid shown. */
  function ScalesConfig(chartType: string): (r: Scales)
    ensures r == NoScales <==> chartType == "pie" || chartType == "doughnut"
    ensures r.Cartesian? ==> r.x.display && r.x.gridDisplay && r.x.beginAtZero == None
    ensures r.Cartesian? ==> r.y.display && r.y.gridDisplay && r.y.beginAtZero == Some(true)
  {
    if chartType == "pie" || chartType == "doughnut" then NoScales
    else Cartesian(Axis(true, true, None), Axis(true, true, Some(true)))
  }

  // ---------------------------------------------------------------------------
  // Chart.js data objects

  /** A dataset as callers pass it in; `seriesLabel` is its `label` field, and a
      field that is absent is `JNull`. */
  datatype InputDataset = InputDataset(seriesLabel: Json, data: seq<Json>, backgroundColor: Json, borderColor: Json, fill: Json)

  /** A dataset of the data object a `create*Chart` builder returns. */
  datatype Dataset =
    | BarDataset(seriesLabel: Json, data: seq<Json>, backgroundColor: Json, borderColor: Json, borderWidth: nat)
    | LineDataset(seriesLabel: Json, data: seq<Json>, fill: Json, borderColor: Json, backgroundColor: Json)
    | PieDataset(data: seq<Json>, backgroundColor: Json, borderColor: Json, borderWidth: nat)

  /** `{ labels, datasets }`. */
  datatype ChartData = ChartData(labels: Json, datasets: seq<Dataset>)

  /** A list of colours as the JSON array Chart.js receives. */
  function ColorList(colors: seq<string>): (r: Json)
    ensures r.JArr? && |r.items| == |colors|
    ensures forall i :: 0 <= i < |colors| ==> r.items[i] == JStr(colors[i])
  {
    JArr(seq(|colors|, i requires 0 <= i < |colors| => JStr(colors[i])))
  }

  /** `value || fallback`. */
  function Or(value: Json, fallback: Json): Json {
    if Truthy(value) then value else fallback
  }

  /** `createBarChart(labels, datasets)`: the labels as given and one bar dataset
      per input dataset, in order, with its label and data, the default palette
      for the data's length where no colour is given, and a border width of 1. */
  function CreateBarChart(labels: Json, datasets: seq<InputDataset>): (r: ChartData)
    ensures r.labels == labels && |r.datasets| == |datasets|
    ensures forall i :: 0 <= i < |datasets| ==>
      r.datasets[i].BarDataset? && r.datasets[i].seriesLabel == datasets[i].seriesLabel &&
      r.datasets[i].data == datasets[i].data && r.datasets[i].borderWidth == 1
    ensures forall i :: 0 <= i < |datasets| ==>
      r.datasets[i].backgroundColor ==
        (if Truthy(datasets[i].backgroundColor) then datasets[i].backgroundColor
         else ColorList(DefaultColors(|datasets[i].data|)))
    ensures forall i :: 0 <= i < |datasets| ==>
      r.datasets[i].borderColor ==
        (if Truthy(datasets[i].borderColor) then datasets[i].borderColor
         else ColorList(DefaultBorderColors(|datasets[i].data|)))
  {
    ChartData(labels, seq(|datasets|, i requires 0 <= i < |datasets| =>
      var d := datasets[i];
      BarDataset(d.seriesLabel, d.data,
        Or(d.backgroundColor, ColorList(DefaultColors(|d.data|))),
        Or(d.borderColor, ColorList(DefaultBorderColors(|d.data|))),
        1)))
  }

  const LineBorder := "#2563eb"
  const LineFill := "rgba(37, 99, 235, 0.1)"

  /** `createLineChart(labels, datasets)`: the labels as given and one line
      dataset per input dataset, in order, not filled unless asked, drawn in
      the first palette colour over a translucent fill of it unless colours are
      given. */
  function CreateLineChart(labels: Json, datasets: seq<InputDataset>): (r: ChartData)
    ensures r.labels == labels && |r.datasets| == |datasets|
    ensures forall i :: 0 <= i < |datasets| ==>
      r.datasets[i].LineDataset? && r.datasets[i].seriesLabel == datasets[i].seriesLabel &&
      r.datasets[i].data == datasets[i].data
    ensures forall i :: 0 <= i < |datasets| ==>
      r.datasets[i].fill == (if Truthy(datasets[i].fill) then datasets[i].fill else JBool(false))
    ensures forall i :: 0 <= i < |datasets| ==>
      r.datasets[i].borderColor == (if Truthy(datasets[i].borderColor) then datasets[i].borderColor else JStr(Palette[0]))
    ensures forall i :: 0 <= i < |datasets| ==>
      r.datasets[i].backgroundColor == (if Truthy(datasets[i].backgroundColor) then datasets[i].backgroundColor else JStr(LineFill))
  {
    ChartData(labels, seq(|datasets|, i requires 0 <= i < |datasets| =>
      var d := datasets[i];
      LineDataset(d.seriesLabel, d.data, Or(d.fill, JBool(false)), Or(d.borderColor, JStr(LineBorder)),
        Or(d.backgroundColor, JStr(LineFill)))))
  }

  /** `createPieChart(labels, data)`: exactly one dataset, holding the data, with
      as many colours and border colours as there are values. */
  function CreatePieChart(labels: Json, data: seq<Json>): (r: ChartData)
    ensures r.labels == labels && |r.datasets| == 1
    ensures r.datasets[0].PieDataset? && r.datasets[0].data == data && r.datasets[0].borderWidth == 1
    ensures r.datasets[0].backgroundColor.JArr? && |r.datasets[0].backgroundColor.items| == |data|
    ensures r.datasets[0].borderColor.JArr? && |r.datasets[0].borderColor.items| == |data|
  {
    ChartData(labels, [PieDataset(data, ColorList(DefaultColors(|data|)), ColorList(DefaultBorderColors(|data|)), 1)])
  }
}
