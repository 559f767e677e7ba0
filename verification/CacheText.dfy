/**
 The texts of the symbol object cache: the metadata file, one `symbol TAB file` line per
 symbol, and the numbered names of object files.
 */
module CacheText {
  import opened Decimals

  type SymMap = map<string, string>

  // ---------- lines ----------

  function LineEnd(text: string): (r: nat)
    ensures r <= |text| && (r < |text| ==> text[r] == '\n')
    ensures forall i :: 0 <= i < r ==> text[i] != '\n'
  {
    if text == [] || text[0] == '\n' then 0 else 1 + LineEnd(text[1..])
  }

  function FirstLine(text: string): string { text[..LineEnd(text)] }

  function LaterLines(text: string): (r: string)
    ensures text != [] ==> |r| < |text|
  {
    if LineEnd(text) < |text| then text[LineEnd(text) + 1..] else []
  }

  function FindTab(line: string): (r: nat)
    ensures r <= |line| && (r < |line| ==> line[r] == '\t')
    ensures forall i :: 0 <= i < r ==> line[i] != '\t'
  {
    if line == [] || line[0] == '\t' then 0 else 1 + FindTab(line[1..])
  }

  predicate IsEntry(line: string) { FindTab(line) < |line| }

  function KeyOf(line: string): string
    requires IsEntry(line)
  {
    line[..FindTab(line)]
  }

  function FileOf(line: string): string
    requires IsEntry(line)
  {
    line[FindTab(line) + 1..]
  }

  // ---------- reading and writing ----------

  /** The map a metadata text stands for: lines without a tab are skipped, the first line of a symbol counts. */
  function ParseMeta(text: string): SymMap
    decreases |text|
  {
    if text == [] then map[] else
    var later := ParseMeta(LaterLines(text));
    var line := FirstLine(text);
    if IsEntry(line) then later[KeyOf(line) := FileOf(line)] else later
  }

  lemma ParseStep(text: string)
    requires text != []
    ensures var later, line := ParseMeta(LaterLines(text)), FirstLine(text);
            ParseMeta(text) == if IsEntry(line) then later[KeyOf(line) := FileOf(line)] else later
  {
  }

  /** `emplace` keeps what is already there. */
  lemma Emplace(later: SymMap, m: SymMap, k: string, v: string)
    ensures later[k := v] + m == later + (if k in m then m else m[k := v])
  {
  }

  method ReadMeta(text: string) returns (m: SymMap)
    ensures m == ParseMeta(text)
  {
    var none: string := [];
    assert ParseMeta(none) == map[];
    hide ParseMeta;
    m := map[];
    var rest := text;
    assert ParseMeta(rest) + m == ParseMeta(rest);
    while rest != []
      invariant ParseMeta(text) == ParseMeta(rest) + m
      decreases |rest|
    {
      var line := FirstLine(rest);
      ParseStep(rest);
      if IsEntry(line) {
        Emplace(ParseMeta(LaterLines(rest)), m, KeyOf(line), FileOf(line));
        if KeyOf(line) !in m { m := m[KeyOf(line) := FileOf(line)]; }
      }
      rest := LaterLines(rest);
    }
    assert ParseMeta(none) + m == m;
  }

  type Entry = (string, string)

  function EntryText(e: Entry): string { e.0 + ['\t'] + e.1 + ['\n'] }

  function MetaText(entries: seq<Entry>): string {
    if entries == [] then [] else EntryText(entries[0]) + MetaText(entries[1..])
  }

  ghost predicate DistinctKeys(entries: seq<Entry>) {
    forall i, j :: 0 <= i < j < |entries| ==> entries[i].0 != entries[j].0
  }

  /** `entries` lists the map, in the order some hash table iterates it. */
  ghost predicate Enumerates(entries: seq<Entry>, m: SymMap) {
    && DistinctKeys(entries)
    && (forall i :: 0 <= i < |entries| ==> entries[i].0 in m && m[entries[i].0] == entries[i].1)
    && (forall k :: k in m ==> (k, m[k]) in entries)
  }

  predicate CleanName(s: string) { '\t' !in s && '\n' !in s }

  /** Names that survive a trip through the metadata file. */
  ghost predicate CleanMap(m: SymMap) {
    forall k :: k in m ==> CleanName(k) && '\n' !in m[k]
  }

  // ---------- the round trip ----------

  lemma {:induction false} LineEndAt(a: string, b: string)
    requires '\n' !in a
    ensures LineEnd(a + ['\n'] + b) == |a|
  {
    var text := a + ['\n'] + b;
    if a != [] {
      assert text[0] == a[0] && text[1..] == a[1..] + ['\n'] + b;
      LineEndAt(a[1..], b);
    }
  }

  lemma {:induction false} FindTabAt(a: string, b: string)
    requires '\t' !in a
    ensures FindTab(a + ['\t'] + b) == |a|
  {
    var line := a + ['\t'] + b;
    if a != [] {
      assert line[0] == a[0] && line[1..] == a[1..] + ['\t'] + b;
      FindTabAt(a[1..], b);
    }
  }

  lemma EntryParses(e: Entry, later: string)
    requires CleanName(e.0) && '\n' !in e.1
    ensures ParseMeta(EntryText(e) + later) == ParseMeta(later)[e.0 := e.1]
  {
    var line := e.0 + ['\t'] + e.1;
    var text := EntryText(e) + later;
    assert text == line + ['\n'] + later;
    LineEndAt(line, later);
    FindTabAt(e.0, e.1);
    assert FirstLine(text) == line && LaterLines(text) == later;
    assert KeyOf(line) == e.0 && FileOf(line) == e.1;
  }

  lemma {:induction false} ParsedEntries(entries: seq<Entry>, m: SymMap)
    requires DistinctKeys(entries)
    requires forall i :: 0 <= i < |entries| ==> CleanName(entries[i].0) && '\n' !in entries[i].1
    requires forall i :: 0 <= i < |entries| ==> entries[i].0 in m && m[entries[i].0] == entries[i].1
    ensures var p := ParseMeta(MetaText(entries));
            forall k :: (k in p <==> k in m && (k, m[k]) in entries) && (k in p ==> p[k] == m[k])
  {
    if entries != [] {
      EntryParses(entries[0], MetaText(entries[1..]));
      ParsedEntries(entries[1..], m);
    }
  }

  /** Whatever a metadata text is, what is read from it has clean names. */
  lemma {:induction false} ParsedIsClean(text: string)
    ensures CleanMap(ParseMeta(text))
    decreases |text|
  {
    if text != [] {
      ParsedIsClean(LaterLines(text));
      var line := FirstLine(text);
      assert '\n' !in line;
      if IsEntry(line) { assert '\t' !in KeyOf(line) && '\n' !in KeyOf(line) && '\n' !in FileOf(line); }
    }
  }

  /**
   Reading back what was written, in any order, gives the map exactly when no symbol holds a
   tab or a newline and no file name a newline.
   */
  lemma MetaRoundTrip(entries: seq<Entry>, m: SymMap)
    requires Enumerates(entries, m)
    ensures ParseMeta(MetaText(entries)) == m <==> CleanMap(m)
  {
    if CleanMap(m) {
      ParsedEntries(entries, m);
    } else {
      ParsedIsClean(MetaText(entries));
    }
  }

  /** For instance, a symbol with a tab comes back as another symbol. */
  lemma TabbedSymbolLost()
    ensures ParseMeta(MetaText([("a\tb", "o")])) == map["a" := "b\to"]
  {
    var text := MetaText([("a\tb", "o")]);
    assert text == "a\tb\to\n" by { assert MetaText([]) == []; }
    LineEndAt("a\tb\to", []);
    assert text == "a\tb\to" + ['\n'] + [];
    FindTabAt("a", "b\to");
    var line := "a" + ['\t'] + "b\to";
    assert FirstLine(text) == line && LaterLines(text) == [];
    assert KeyOf(line) == "a" && FileOf(line) == "b\to";
  }

  // ---------- what the map of a text is ----------

  /** `line` is a whole line of the text, and begins at position `at`. */
  predicate LineAt(text: string, line: string, at: nat) {
    && at + |line| <= |text| && text[at..at + |line|] == line
    && (at == 0 || text[at - 1] == '\n') && (at + |line| == |text| || text[at + |line|] == '\n')
  }

  /** The line at position `at` is the symbol, a tab and the file. */
  predicate DefinesAt(text: string, k: string, f: string, at: nat) {
    CleanName(k) && '\n' !in f && LineAt(text, k + ['\t'] + f, at)
  }

  lemma DefinedByFirst(text: string, k: string, f: string)
    requires text != []
    ensures DefinesAt(text, k, f, 0) <==> IsEntry(FirstLine(text)) && KeyOf(FirstLine(text)) == k && FileOf(FirstLine(text)) == f
  {
    var line, n := FirstLine(text), |k| + 1 + |f|;
    if DefinesAt(text, k, f, 0) {
      var all := k + ['\t'] + f;
      assert '\n' !in all;
      if n < |text| {
        assert text == all + ['\n'] + text[n + 1..];
        LineEndAt(all, text[n + 1..]);
      } else {
        assert text == all;
      }
      assert line == all;
      FindTabAt(k, f);
    }
  }

  lemma NoLineInside(text: string, k: string, f: string, at: nat)
    requires 0 < at <= LineEnd(text)
    ensures !DefinesAt(text, k, f, at)
  {
  }

  lemma LineOfLater(text: string, line: string, e: nat, at: nat)
    requires 0 < e <= at && e <= |text| && text[e - 1] == '\n'
    ensures LineAt(text, line, at) <==> LineAt(text[e..], line, at - e)
  {
    var later := text[e..];
    if at + |line| <= |text| { assert text[at..at + |line|] == later[at - e..at - e + |line|]; }
  }

  lemma DefinedByLater(text: string, k: string, f: string, at: nat)
    requires text != [] && at > LineEnd(text)
    ensures LineEnd(text) >= |text| ==> !DefinesAt(text, k, f, at)
    ensures LineEnd(text) < |text| ==> (DefinesAt(text, k, f, at) <==> DefinesAt(LaterLines(text), k, f, at - LineEnd(text) - 1))
  {
    hide CleanName, LineAt, LineEnd, LaterLines;
    var e, line := LineEnd(text) + 1, k + ['\t'] + f;
    if e <= |text| {
      LaterForm(text);
      LineOfLater(text, line, e, at);
    } else {
      NoLineBeyond(text, line, at);
    }
  }

  lemma LaterForm(text: string)
    requires LineEnd(text) < |text|
    ensures text[LineEnd(text)] == '\n' && LaterLines(text) == text[LineEnd(text) + 1..]
  {
  }

  lemma NoLineBeyond(text: string, line: string, at: nat)
    ensures at > |text| ==> !LineAt(text, line, at)
  {
  }

  /** No line before `at` is about the symbol. */
  ghost predicate FirstDefined(text: string, k: string, f: string, at: nat) {
    DefinesAt(text, k, f, at) && forall g, i: nat :: i < at ==> !DefinesAt(text, k, g, i)
  }

  /** A text maps a symbol to a file exactly when the first of its lines about the symbol says so. */
  lemma {:induction false} FirstLineCounts(text: string, k: string, f: string)
    ensures k in ParseMeta(text) && ParseMeta(text)[k] == f <==> exists at :: FirstDefined(text, k, f, at)
    decreases |text|
  {
    if text != [] {
      hide IsEntry, KeyOf, FileOf;
      ParseStep(text);
      var line, later, e := FirstLine(text), LaterLines(text), LineEnd(text);
      hide ParseMeta, DefinesAt;
      FirstLineCounts(later, k, f);
      DefinedByFirst(text, k, f);
      LinesApart(text, k);
      if IsEntry(line) && KeyOf(line) == k {
        DefinedByFirst(text, k, FileOf(line));
        assert DefinesAt(text, k, FileOf(line), 0);
        if f == FileOf(line) { assert FirstDefined(text, k, f, 0); }
      } else {
        LaterDefined(text, k, f);
      }
    }
  }

  lemma LinesApart(text: string, k: string)
    requires text != []
    ensures forall f, at: nat :: 0 < at <= LineEnd(text) ==> !DefinesAt(text, k, f, at)
  {
    forall f, at: nat | 0 < at <= LineEnd(text) ensures !DefinesAt(text, k, f, at) { NoLineInside(text, k, f, at); }
  }

  lemma LaterDefined(text: string, k: string, f: string)
    requires text != [] && !(IsEntry(FirstLine(text)) && KeyOf(FirstLine(text)) == k)
    ensures (exists at :: FirstDefined(text, k, f, at)) <==> (exists at :: FirstDefined(LaterLines(text), k, f, at))
  {
    hide DefinesAt;
    var later, e := LaterLines(text), LineEnd(text) + 1;
    forall g, at: nat ensures DefinesAt(text, k, g, at) ==> at >= e && e <= |text| && DefinesAt(later, k, g, at - e) {
      DefinedByFirst(text, k, g);
      if 0 < at < e { NoLineInside(text, k, g, at); }
      if at >= e { DefinedByLater(text, k, g, at); }
    }
    forall g, at: nat ensures DefinesAt(later, k, g, at) ==> DefinesAt(text, k, g, at + e) {
      if e <= |text| { DefinedByLater(text, k, g, at + e); } else { NothingDefined(k, g, at); }
    }
    if at: nat :| FirstDefined(text, k, f, at) {
      assert FirstDefined(later, k, f, at - e);
    }
    if at: nat :| FirstDefined(later, k, f, at) {
      assert FirstDefined(text, k, f, at + e);
    }
  }

  lemma NothingDefined(k: string, f: string, at: nat)
    ensures !DefinesAt([], k, f, at)
  {
  }

  // ---------- numbered file names ----------

  const PREFIX: string := "qumir_inc_"
  const SUFFIX: string := ".o"

  function FileName(n: nat): string { PREFIX + Decimal(n) + SUFFIX }

  predicate IsSpace(c: char) { c == ' ' || '\t' <= c <= '\r' }

  function SkipSpace(s: string): string {
    if s != [] && IsSpace(s[0]) then SkipSpace(s[1..]) else s
  }

  /** `%d` of `sscanf`: spaces, a sign, at least one digit. */
  function ScanInt(text: string): (r: (bool, int)) {
    var s := SkipSpace(text);
    var signed := s != [] && (s[0] == '+' || s[0] == '-');
    var digits := if signed then s[1..] else s;
    if digits == [] || !IsDigit(digits[0]) then (false, 0)
    else (true, if signed && s[0] == '-' then 0 - ScanDigits(digits, 0) else ScanDigits(digits, 0))
  }

  /** The number in a file name; what follows the number does not matter. */
  function ScanVersion(file: string): (r: (bool, int)) {
    if PREFIX <= file then ScanInt(file[|PREFIX|..]) else (false, 0)
  }

  /** The number of a file name is read back as it was written. */
  lemma VersionRoundTrip(n: nat)
    ensures ScanVersion(FileName(n)) == (true, n)
  {
    assert FileName(n)[|PREFIX|..] == Decimal(n) + SUFFIX;
    ScanDecimal(n, SUFFIX);
    var s := Decimal(n) + SUFFIX;
    assert s[0] == Decimal(n)[0] && IsDigit(s[0]) && SkipSpace(s) == s;
  }

  lemma {:induction false} SpacesSkipped(spaces: string, s: string)
    requires (forall i :: 0 <= i < |spaces| ==> IsSpace(spaces[i])) && (s == [] || !IsSpace(s[0]))
    ensures SkipSpace(spaces + s) == s
    decreases |spaces|
  {
    if spaces == [] {
      assert spaces + s == s;
    } else {
      assert (spaces + s)[1..] == spaces[1..] + s;
      SpacesSkipped(spaces[1..], s);
    }
  }

  /** What `sscanf` reads as a number: spaces, a sign and digits, whatever else follows. */
  lemma ScannedVersion(spaces: string, sign: string, n: nat, tail: string)
    requires forall i :: 0 <= i < |spaces| ==> IsSpace(spaces[i])
    requires sign == "" || sign == "+" || sign == "-"
    requires tail == [] || !IsDigit(tail[0])
    ensures ScanVersion(PREFIX + (spaces + (sign + (Decimal(n) + tail)))) == (true, if sign == "-" then 0 - n else n)
  {
    var digits := Decimal(n) + tail;
    var s := sign + digits;
    assert (PREFIX + (spaces + s))[|PREFIX|..] == spaces + s;
    assert sign != "" ==> s[0] == sign[0] && s[1..] == digits;
    assert sign == "" ==> s == digits;
    assert digits[0] == Decimal(n)[0];
    SpacesSkipped(spaces, s);
    ScanDecimal(n, tail);
  }

  lemma FileNameClean(n: nat)
    ensures '\n' !in FileName(n)
  {
  }

  /** The least number above all numbers in the mapped file names, 0 if there are none. */
  ghost predicate IsNextVersion(m: SymMap, v: nat) {
    && (forall k :: k in m && ScanVersion(m[k]).0 ==> ScanVersion(m[k]).1 < v)
    && (v > 0 ==> exists k :: k in m && ScanVersion(m[k]) == (true, v - 1))
  }

  method NextIncVer(m: SymMap) returns (next: nat)
    ensures IsNextVersion(m, next)
  {
    next := 0;
    var keys := m.Keys;
    while keys != {}
      invariant keys <= m.Keys
      invariant forall k :: k in m && k !in keys && ScanVersion(m[k]).0 ==> ScanVersion(m[k]).1 < next
      invariant next > 0 ==> exists k :: k in m && ScanVersion(m[k]) == (true, next - 1)
      decreases |keys|
    {
      var k :| k in keys;
      var (ok, n) := ScanVersion(m[k]);
      if ok && n + 1 > next {
        next := n + 1;
        assert ScanVersion(m[k]) == (true, next - 1);
      }
      keys := keys - {k};
    }
  }

  /** A new object never takes the name of a mapped one. */
  lemma NextNameIsFresh(m: SymMap, v: nat, k: string)
    requires IsNextVersion(m, v) && k in m
    ensures m[k] != FileName(v)
  {
    VersionRoundTrip(v);
  }
}
