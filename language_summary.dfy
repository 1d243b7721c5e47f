/**
 * The language summary of `fetchRepositoryLineCounts` in `src/lib/github.ts`:
 * the byte sizes of all language edges of all repositories are accumulated
 * per language in a JavaScript `Map`, converted to lines (40 bytes a line,
 * rounded), sorted by lines descending, and the first three are rendered as
 * "Name (lines)" joined by ", ", or "N/A" when there are none.
 */
module LanguageSummary {
  import opened Outcomes
  import opened Seqs
  import StableSort
  import Decimal

  /** One edge of `repo.languages.edges`: `{ size, node: { name } }`. */
  datatype LanguageEdge = LanguageEdge(size: nat, name: string)

  /** One node of `user.repositories.nodes`. */
  datatype Repository = Repository(name: string, primaryLanguage: Option<string>, edges: seq<LanguageEdge>)

  /** The edges of all repositories, in the order the nested loops visit them. */
  function AllEdges(repos: seq<Repository>): seq<LanguageEdge>
  {
    if |repos| == 0 then [] else AllEdges(repos[..|repos| - 1]) + repos[|repos| - 1].edges
  }

  lemma AllEdgesSnoc(repos: seq<Repository>, r: Repository)
    ensures AllEdges(repos + [r]) == AllEdges(repos) + r.edges
  {
    assert (repos + [r])[..|repos|] == repos;
  }

  function Names(edges: seq<LanguageEdge>): (r: seq<string>)
    ensures |r| == |edges| && forall i :: 0 <= i < |edges| ==> r[i] == edges[i].name
  {
    seq(|edges|, i requires 0 <= i < |edges| => edges[i].name)
  }

  /** The bytes of language `lang`: the sum of the sizes of its edges. */
  function LanguageBytes(edges: seq<LanguageEdge>, lang: string): nat
  {
    if |edges| == 0 then 0
    else
      var e := edges[|edges| - 1];
      LanguageBytes(edges[..|edges| - 1], lang) + (if e.name == lang then e.size else 0)
  }

  lemma LanguageBytesSnoc(edges: seq<LanguageEdge>, e: LanguageEdge, lang: string)
    ensures LanguageBytes(edges + [e], lang) == LanguageBytes(edges, lang) + (if e.name == lang then e.size else 0)
  {
    assert (edges + [e])[..|edges|] == edges;
  }

  lemma DistinctNamesSnoc(edges: seq<LanguageEdge>, e: LanguageEdge)
    ensures var d := Distinct(Names(edges));
      Distinct(Names(edges + [e])) == if e.name in d then d else d + [e.name]
  {
    assert Names(edges + [e]) == Names(edges) + [e.name];
    DistinctSnoc(Names(edges), e.name);
  }

  datatype LanguageTotal = LanguageTotal(name: string, bytes: nat)

  /** The specification of the accumulated `Map`: languages in first-appearance order, each with its bytes. */
  function Tally(edges: seq<LanguageEdge>): seq<LanguageTotal>
  {
    var order := Distinct(Names(edges));
    seq(|order|, i requires 0 <= i < |order| => LanguageTotal(order[i], LanguageBytes(edges, order[i])))
  }

  /**
   * A JavaScript `Map<string, number>`: its keys in insertion order and its
   * values. Setting an existing key keeps its position.
   */
  datatype OrderedMap = OrderedMap(keys: seq<string>, values: map<string, nat>)
  {
    ghost predicate Valid()
    {
      && NoDuplicates(keys)
      && (forall k :: k in values <==> k in keys)
    }

    /** `map.get(k) || 0` */
    function GetOrZero(k: string): nat
    {
      if k in values then values[k] else 0
    }

    /** `map.set(k, v)` */
    function Set(k: string, v: nat): (m: OrderedMap)
      requires Valid()
      ensures m.Valid()
      ensures m.keys == if k in keys then keys else keys + [k]
      ensures m.values == values[k := v]
    {
      OrderedMap(if k in values then keys else keys + [k], values[k := v])
    }

    /** `Array.from(map.entries())` */
    function Entries(): seq<LanguageTotal>
      requires Valid()
    {
      seq(|keys|, i requires 0 <= i < |keys| => LanguageTotal(keys[i], values[keys[i]]))
    }
  }

  /** `m` holds, in insertion order, exactly the per-language byte sums of `edges`. */
  ghost predicate Tracks(m: OrderedMap, edges: seq<LanguageEdge>)
  {
    && m.Valid()
    && m.keys == Distinct(Names(edges))
    && ValuesTrack(m.values, edges)
  }

  /** Every language in `values` is mapped to its byte sum over `edges`. */
  ghost predicate ValuesTrack(values: map<string, nat>, edges: seq<LanguageEdge>)
  {
    forall n :: n in values ==> values[n] == LanguageBytes(edges, n)
  }

  /** One `languageTotals.set(langName, (languageTotals.get(langName) || 0) + bytes)` keeps `Tracks`. */
  lemma TrackStep(m: OrderedMap, edges: seq<LanguageEdge>, e: LanguageEdge)
    requires Tracks(m, edges)
    ensures Tracks(m.Set(e.name, m.GetOrZero(e.name) + e.size), edges + [e])
  {
    assert e.name in m.values <==> e.name in m.keys;
    var m' := m.Set(e.name, m.GetOrZero(e.name) + e.size);
    TrackKeys(m.keys, edges, e);
    TrackValues(m.values, edges, e);
    assert m'.values == m.values[e.name := m.GetOrZero(e.name) + e.size];
  }

  lemma TrackKeys(keys: seq<string>, edges: seq<LanguageEdge>, e: LanguageEdge)
    requires keys == Distinct(Names(edges))
    ensures (if e.name in keys then keys else keys + [e.name]) == Distinct(Names(edges + [e]))
  {
    DistinctNamesSnoc(edges, e);
  }

  lemma TrackValues(values: map<string, nat>, edges: seq<LanguageEdge>, e: LanguageEdge)
    requires ValuesTrack(values, edges)
    requires e.name !in values ==> e.name !in Distinct(Names(edges))
    ensures var v := if e.name in values then values[e.name] else 0;
      ValuesTrack(values[e.name := v + e.size], edges + [e])
  {
    forall n {
      LanguageBytesSnoc(edges, e, n);
    }
    if e.name !in values {
      NoEdgeNoBytes(edges, e.name);
    }
  }

  lemma TrackedEntries(m: OrderedMap, edges: seq<LanguageEdge>)
    requires Tracks(m, edges)
    ensures m.Entries() == Tally(edges)
  {
  }

  /** The nested loops that fill `languageTotals`, then `Array.from(languageTotals.entries())`. */
  method AggregateLanguages(repositories: seq<Repository>) returns (tally: seq<LanguageTotal>)
    ensures tally == Tally(AllEdges(repositories))
  {
    var languageTotals := OrderedMap([], map[]);
    assert AllEdges(repositories[..0]) == [];
    assert Names([]) == [];
    for r := 0 to |repositories|
      invariant Tracks(languageTotals, AllEdges(repositories[..r]))
    {
      var repo := repositories[r];
      ghost var before := AllEdges(repositories[..r]);
      PrefixEnds(before, repo.edges);
      for e := 0 to |repo.edges|
        invariant Tracks(languageTotals, before + repo.edges[..e])
      {
        var langEdge := repo.edges[e];
        var langName := langEdge.name;
        var bytes := langEdge.size;
        PrefixStep(before, repo.edges, e);
        TrackStep(languageTotals, before + repo.edges[..e], langEdge);
        languageTotals := languageTotals.Set(langName, languageTotals.GetOrZero(langName) + bytes);
      }
      SliceStep(repositories, r);
      AllEdgesSnoc(repositories[..r], repo);
    }
    assert repositories[..|repositories|] == repositories;
    TrackedEntries(languageTotals, AllEdges(repositories));
    tally := languageTotals.Entries();
  }

  /** A language without edges has no bytes. */
  lemma {:induction false} NoEdgeNoBytes(edges: seq<LanguageEdge>, lang: string)
    requires lang !in Distinct(Names(edges))
    ensures LanguageBytes(edges, lang) == 0
  {
    if |edges| > 0 {
      var init := edges[..|edges| - 1];
      assert edges == init + [edges[|edges| - 1]];
      DistinctNamesSnoc(init, edges[|edges| - 1]);
      NoEdgeNoBytes(init, lang);
    }
  }

  // ------------------------------------------------------- ranking and text

  /**
   * `Math.round(bytes / 40)`: for a non-negative integer this is `(bytes + 20) / 40`
   * in integer division, the nearest whole number of lines with halves rounded up.
   */
  function Lines(bytes: nat): (r: nat)
    ensures 40 * r <= bytes + 20 < 40 * r + 40
  {
    (bytes + 20) / 40
  }

  datatype LanguageLines = LanguageLines(name: string, bytes: nat, lines: nat)

  /** `.map(([name, bytes]) => ({ name, bytes, lines: Math.round(bytes / 40) }))` */
  function Ranked(tally: seq<LanguageTotal>): (r: seq<LanguageLines>)
    ensures |r| == |tally|
    ensures forall i :: 0 <= i < |r| ==>
      r[i] == LanguageLines(tally[i].name, tally[i].bytes, Lines(tally[i].bytes))
  {
    seq(|tally|, i requires 0 <= i < |tally| => LanguageLines(tally[i].name, tally[i].bytes, Lines(tally[i].bytes)))
  }

  /** The sort key of `.sort((a, b) => b.lines - a.lines)`. */
  function LinesKey(l: LanguageLines): real { l.lines as real }

  /** `sortedLanguages.slice(0, 3)` */
  function TopLanguages(tally: seq<LanguageTotal>): seq<LanguageLines>
  {
    var sorted := StableSort.Sort(Ranked(tally), LinesKey);
    if |sorted| <= 3 then sorted else sorted[..3]
  }

  /**
   * At most three languages, the first three of the sorted list: ordered by
   * lines descending, and no language left out has more lines than one kept.
   */
  lemma TopLanguagesAreTheLargest(tally: seq<LanguageTotal>)
    ensures var top, sorted := TopLanguages(tally), StableSort.Sort(Ranked(tally), LinesKey);
      && |top| == (if |tally| < 3 then |tally| else 3)
      && top == sorted[..|top|]
      && (forall i, j :: 0 <= i < j < |top| ==> top[i].lines >= top[j].lines)
      && (forall i, j :: 0 <= i < |top| <= j < |sorted| ==> top[i].lines >= sorted[j].lines)
  {
    var sorted := StableSort.Sort(Ranked(tally), LinesKey);
    assert |sorted| == |tally|;
    PrefixOfSorted(sorted, TopLanguages(tally));
  }

  lemma PrefixOfSorted(sorted: seq<LanguageLines>, top: seq<LanguageLines>)
    requires StableSort.NonIncreasing(sorted, LinesKey)
    requires top == if |sorted| <= 3 then sorted else sorted[..3]
    ensures |top| == (if |sorted| < 3 then |sorted| else 3)
    ensures top == sorted[..|top|]
    ensures forall i, j :: 0 <= i < j < |top| ==> top[i].lines >= top[j].lines
    ensures forall i, j :: 0 <= i < |top| <= j < |sorted| ==> top[i].lines >= sorted[j].lines
  {
    forall i, j | 0 <= i < j < |sorted| ensures sorted[i].lines >= sorted[j].lines {
      assert LinesKey(sorted[i]) >= LinesKey(sorted[j]);
    }
  }

  /**
   * The sorted list is a permutation of the languages in which languages with
   * the same number of lines keep their first-appearance order.
   */
  lemma RankingIsStablePermutation(tally: seq<LanguageTotal>, v: real)
    ensures var sorted := StableSort.Sort(Ranked(tally), LinesKey);
      && multiset(sorted) == multiset(Ranked(tally))
      && StableSort.WithKey(sorted, LinesKey, v) == StableSort.WithKey(Ranked(tally), LinesKey, v)
  {
    StableSort.SortIsStable(Ranked(tally), LinesKey, v);
  }

  /**
   * `formatNumber`: below 1000 the decimal digits of `n`; from 1000 on the
   * text of `(n / 1000).toFixed(1)`, given as `thousands`, followed by "k".
   */
  function FormatNumber(n: nat, thousands: nat -> string): (r: string)
    ensures n < 1000 ==> Decimal.IsDecimal(r) && Decimal.ToNat(r) == n
    ensures n >= 1000 ==> |r| > 0 && r[|r| - 1] == 'k'
  {
    if n >= 1000 then thousands(n) + "k"
    else
      Decimal.RoundTrip(n);
      Decimal.FromNat(n)
  }

  /** `${lang.name} (${formatNumber(lang.lines)})`: the name, then the formatted line count in parentheses. */
  function Describe(lang: LanguageLines, thousands: nat -> string): (r: string)
    ensures |r| >= |lang.name| + 3
    ensures r[..|lang.name| + 2] == lang.name + " ("
    ensures r[|lang.name| + 2..|r| - 1] == FormatNumber(lang.lines, thousands)
    ensures r[|r| - 1] == ')'
  {
    var r := lang.name + " (" + FormatNumber(lang.lines, thousands) + ")";
    assert r[..|lang.name| + 2] == lang.name + " (";
    assert r[|lang.name| + 2..|r| - 1] == FormatNumber(lang.lines, thousands);
    r
  }

  /** Below 1000 lines, the count inside the parentheses reads back as the language's line count. */
  lemma DescribeShowsCount(lang: LanguageLines, thousands: nat -> string)
    requires lang.lines < 1000
    ensures var r := Describe(lang, thousands);
      var digits := r[|lang.name| + 2..|r| - 1];
      Decimal.IsDecimal(digits) && Decimal.ToNat(digits) == lang.lines
  {
  }

  /** The summed lengths of `parts`. */
  function TotalLength(parts: seq<string>): nat
  {
    if |parts| == 0 then 0 else TotalLength(parts[..|parts| - 1]) + |parts[|parts| - 1]|
  }

  /** `parts.join(separator)`: every part in order, with the separator between neighbours. */
  function Join(parts: seq<string>, separator: string): (r: string)
    ensures |parts| > 0 ==> |r| == TotalLength(parts) + (|parts| - 1) * |separator|
    ensures |parts| > 0 ==> |r| >= |parts[0]| && r[..|parts[0]|] == parts[0]
    ensures |parts| > 0 ==> |r| >= |parts[|parts| - 1]| && r[|r| - |parts[|parts| - 1]|..] == parts[|parts| - 1]
  {
    if |parts| == 0 then ""
    else if |parts| == 1 then parts[0]
    else
      var init := Join(parts[..|parts| - 1], separator);
      assert parts[..|parts| - 1][0] == parts[0];
      var r := init + separator + parts[|parts| - 1];
      assert r[..|parts[0]|] == init[..|parts[0]|];
      r
  }

  /** Joining one more part appends the separator and that part. */
  lemma JoinSnoc(parts: seq<string>, separator: string, p: string)
    requires |parts| > 0
    ensures Join(parts + [p], separator) == Join(parts, separator) + separator + p
  {
    assert (parts + [p])[..|parts|] == parts;
  }

  /** `linesByLanguage`: the top three joined by ", ", or "N/A" when there is no language. */
  function LinesByLanguage(tally: seq<LanguageTotal>, thousands: nat -> string): string
  {
    var top := TopLanguages(tally);
    var languageStrings := seq(|top|, i requires 0 <= i < |top| => Describe(top[i], thousands));
    if |languageStrings| > 0 then Join(languageStrings, ", ") else "N/A"
  }

  /** The text is "N/A" exactly when no repository has a language edge. */
  lemma LinesByLanguageNotAvailable(repositories: seq<Repository>, thousands: nat -> string)
    ensures LinesByLanguage(Tally(AllEdges(repositories)), thousands) == "N/A" <==> |AllEdges(repositories)| == 0
  {
    TallyEmpty(AllEdges(repositories));
    NotAvailableWithoutLanguages(Tally(AllEdges(repositories)), thousands);
  }

  /** There is a language exactly when there is an edge. */
  lemma TallyEmpty(edges: seq<LanguageEdge>)
    ensures |Tally(edges)| == 0 <==> |edges| == 0
  {
    if |edges| > 0 {
      assert Names(edges)[0] in Distinct(Names(edges));
    }
  }

  /** The text is "N/A" exactly when the tally is empty: every description ends with ')'. */
  lemma NotAvailableWithoutLanguages(tally: seq<LanguageTotal>, thousands: nat -> string)
    ensures LinesByLanguage(tally, thousands) == "N/A" <==> |tally| == 0
  {
    assert |StableSort.Sort(Ranked(tally), LinesKey)| == |tally|;
    var top := TopLanguages(tally);
    if |top| > 0 {
      var parts := seq(|top|, i requires 0 <= i < |top| => Describe(top[i], thousands));
      JoinEndsWith(parts, ", ", ')');
      assert "N/A"[2] == 'A';
    }
  }

  /** A join ends with the last character of its last part. */
  lemma JoinEndsWith(parts: seq<string>, separator: string, c: char)
    requires |parts| > 0 && |parts[|parts| - 1]| > 0
    requires parts[|parts| - 1][|parts[|parts| - 1]| - 1] == c
    ensures var r := Join(parts, separator); |r| > 0 && r[|r| - 1] == c
  {
    var r, last := Join(parts, separator), parts[|parts| - 1];
    assert r[|r| - |last|..][|last| - 1] == r[|r| - 1];
  }

  /** `Array.from(languageTotals.values()).reduce((sum, val) => sum + val, 0)` */
  function TotalBytes(tally: seq<LanguageTotal>): nat
  {
    if |tally| == 0 then 0 else TotalBytes(tally[..|tally| - 1]) + tally[|tally| - 1].bytes
  }

  /** `formatNumber(Math.round(totalBytes / 40))` */
  function TotalLinesOfCode(tally: seq<LanguageTotal>, thousands: nat -> string): string
  {
    FormatNumber(Lines(TotalBytes(tally)), thousands)
  }

  /** The sum of the sizes of all edges. */
  function EdgeBytes(edges: seq<LanguageEdge>): nat
  {
    if |edges| == 0 then 0 else EdgeBytes(edges[..|edges| - 1]) + edges[|edges| - 1].size
  }

  /** Summing the per-language bytes over the languages `langs`. */
  function BytesOver(langs: seq<string>, edges: seq<LanguageEdge>): nat
  {
    if |langs| == 0 then 0 else BytesOver(langs[..|langs| - 1], edges) + LanguageBytes(edges, langs[|langs| - 1])
  }

  lemma {:induction false} BytesOverSnoc(langs: seq<string>, edges: seq<LanguageEdge>, e: LanguageEdge)
    requires NoDuplicates(langs)
    ensures BytesOver(langs, edges + [e]) == BytesOver(langs, edges) + (if e.name in langs then e.size else 0)
  {
    if |langs| > 0 {
      var init := langs[..|langs| - 1];
      BytesOverSnoc(init, edges, e);
      LanguageBytesSnoc(edges, e, langs[|langs| - 1]);
      assert langs == init + [langs[|langs| - 1]];
    }
  }

  lemma {:induction false} BytesOverAllLanguages(langs: seq<string>, edges: seq<LanguageEdge>)
    requires NoDuplicates(langs)
    requires forall i :: 0 <= i < |edges| ==> edges[i].name in langs
    ensures BytesOver(langs, edges) == EdgeBytes(edges)
  {
    if |edges| == 0 {
      BytesOverNoEdges(langs);
    } else {
      var init := edges[..|edges| - 1];
      var e := edges[|edges| - 1];
      BytesOverAllLanguages(langs, init);
      assert edges == init + [e];
      BytesOverSnoc(langs, init, e);
    }
  }

  lemma {:induction false} BytesOverNoEdges(langs: seq<string>)
    ensures BytesOver(langs, []) == 0
  {
    if |langs| > 0 {
      BytesOverNoEdges(langs[..|langs| - 1]);
    }
  }

  lemma {:induction false} TotalBytesIsBytesOver(edges: seq<LanguageEdge>, n: nat)
    requires n <= |Distinct(Names(edges))|
    ensures TotalBytes(Tally(edges)[..n]) == BytesOver(Distinct(Names(edges))[..n], edges)
  {
    if n > 0 {
      TotalBytesIsBytesOver(edges, n - 1);
      var d := Distinct(Names(edges));
      assert Tally(edges)[..n][..n - 1] == Tally(edges)[..n - 1];
      assert d[..n][..n - 1] == d[..n - 1];
    }
  }

  /** The total of the language bytes is the total size of all edges: nothing is lost or counted twice. */
  lemma TotalBytesOfTally(edges: seq<LanguageEdge>)
    ensures TotalBytes(Tally(edges)) == EdgeBytes(edges)
  {
    var d := Distinct(Names(edges));
    TotalBytesIsBytesOver(edges, |d|);
    assert Tally(edges)[..|d|] == Tally(edges);
    assert d[..|d|] == d;
    forall i | 0 <= i < |edges| ensures edges[i].name in d {
      assert Names(edges)[i] == edges[i].name;
    }
    BytesOverAllLanguages(d, edges);
  }
}
