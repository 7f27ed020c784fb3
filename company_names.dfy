/**
 * The company-name clean-up script. Each cell of the name column is
 * cleaned (a trailing and a leading number with its separators removed,
 * "Logistics" shortened to "Log", blanks stripped), and the distinct
 * cleaned names are then grouped: each name not yet placed becomes a master
 * and every name the fuzzy matcher scores at or above the threshold against
 * it is mapped to it. The matcher is a parameter; reading and writing the
 * spreadsheet is not part of this model.
 */
module CompanyNames {
  import opened Common
  import opened Text

  /** A spreadsheet cell: a string, a missing value (NaN, None), or any other value with its `str()` form. */
  datatype Cell = Str(s: string) | Missing | Other(shown: string)

  /** The text a cell is cleaned from: the string itself, "" for a missing value, else its `str()` form. */
  function CellText(c: Cell): string {
    match c
    case Str(s) => s
    case Missing => ""
    case Other(shown) => shown
  }

  /** `[\s\-\.]`: a blank, a hyphen or a full stop. */
  predicate IsSep(c: char) {
    IsPySpace(c) || c == '-' || c == '.'
  }

  /** `$` (without MULTILINE) matches at the end of the text and just before a final newline. */
  predicate DollarAt(s: string, e: nat) {
    e == |s| || (e == |s| - 1 && s[e] == '\n')
  }

  /** `[\s\-\.]+\d+$` matches `s[p..e]`: separators on `[p, q)`, digits on `[q, e)`, and `$` at `e`. */
  predicate TrailingMatch(s: string, p: nat, q: nat, e: nat) {
    && p < q < e <= |s| && DollarAt(s, e)
    && (forall k :: p <= k < q ==> IsSep(s[k]))
    && (forall k :: q <= k < e ==> IsDigit(s[k]))
  }

  /** Where a match of the trailing pattern has to end: the end, or before a final newline. */
  function MatchEnd(s: string): (e: nat)
    ensures e <= |s| && DollarAt(s, e)
  {
    if s != [] && s[|s| - 1] == '\n' then |s| - 1 else |s|
  }

  /** The start of the run of digits that ends where a match has to end. */
  function DigitsStart(s: string): (q: nat)
    ensures q <= MatchEnd(s) && (forall k :: q <= k < MatchEnd(s) ==> IsDigit(s[k]))
    ensures q > 0 ==> !IsDigit(s[q - 1])
  {
    var t := s[..MatchEnd(s)];
    var q := |TrimRight(t, IsDigit)|;
    assert forall k :: q <= k < |t| ==> IsDigit(t[k]);
    if q > 0 then assert s[q - 1] == TrimRight(t, IsDigit)[q - 1]; q else q
  }

  /** The start of the run of separators that ends at `q`. */
  function SepsStart(s: string, q: nat): (p: nat)
    requires q <= |s|
    ensures p <= q && (forall k :: p <= k < q ==> IsSep(s[k]))
    ensures p > 0 ==> !IsSep(s[p - 1])
  {
    var t := s[..q];
    var p := |TrimRight(t, IsSep)|;
    assert forall k :: p <= k < |t| ==> IsSep(t[k]);
    if p > 0 then assert s[p - 1] == TrimRight(t, IsSep)[p - 1]; p else p
  }

  /**
   * `re.sub(r'[\s\-\.]+\d+$', '', text)`: the digits before the end (or
   * before a final newline) and the whole run of separators before them are
   * cut out; without such digits and separators the text is unchanged.
   */
  function TrimTrailingNumber(s: string): string {
    var e := MatchEnd(s);
    var q := DigitsStart(s);
    var p := SepsStart(s, q);
    if p < q < e then s[..p] + s[e..] else s
  }

  /** Every match ends where `$` allows after a digit: at `MatchEnd`. */
  lemma MatchEndsAtEnd(s: string, p: nat, q: nat, e: nat)
    requires TrailingMatch(s, p, q, e)
    ensures e == MatchEnd(s) && DigitsStart(s) == q
  {
    assert IsDigit(s[e - 1]);
    assert !IsDigit(s[q - 1]);
  }

  /**
   * When the pattern matches, the leftmost match is the one cut out. No
   * second match can follow it: it ends at `$`, and what is left after it
   * is empty or a newline.
   */
  lemma TrailingRemovesLeftmostMatch(s: string, p: nat, q: nat, e: nat)
    requires TrailingMatch(s, p, q, e)
    requires forall p': nat, q': nat, e': nat :: TrailingMatch(s, p', q', e') ==> p <= p'
    ensures TrimTrailingNumber(s) == s[..p] + s[e..]
  {
    MatchEndsAtEnd(s, p, q, e);
    var p0 := SepsStart(s, q);
    assert p0 <= p;
    assert TrailingMatch(s, p0, q, e);
  }

  /** Without a match the text is unchanged. */
  lemma TrailingNoMatch(s: string)
    requires forall p: nat, q: nat, e: nat :: !TrailingMatch(s, p, q, e)
    ensures TrimTrailingNumber(s) == s
  {
    var e0 := MatchEnd(s);
    var q0 := DigitsStart(s);
    var p0 := SepsStart(s, q0);
    assert !TrailingMatch(s, p0, q0, e0);
  }

  /** `^\d+[\s\-\.]+` matches `s[..b]`: digits on `[0, q)`, separators on `[q, b)`. */
  predicate LeadingMatch(s: string, q: nat, b: nat) {
    && 0 < q < b <= |s|
    && (forall k :: 0 <= k < q ==> IsDigit(s[k]))
    && (forall k :: q <= k < b ==> IsSep(s[k]))
  }

  /** The end of the leading digits. */
  function LeadingDigitsEnd(s: string): (q: nat)
    ensures q <= |s| && (forall k :: 0 <= k < q ==> IsDigit(s[k])) && (q < |s| ==> !IsDigit(s[q]))
  {
    |s| - |TrimLeft(s, IsDigit)|
  }

  /** The end of the run of separators that starts at `q`. */
  function SepsEnd(s: string, q: nat): (b: nat)
    requires q <= |s|
    ensures q <= b <= |s| && (forall k :: q <= k < b ==> IsSep(s[k])) && (b < |s| ==> !IsSep(s[b]))
  {
    var rest := s[q..];
    var b := q + (|rest| - |TrimLeft(rest, IsSep)|);
    forall k | q <= k < b
      ensures IsSep(s[k])
    {
      assert s[k] == rest[k - q];
    }
    b
  }

  /**
   * `re.sub(r'^\d+[\s\-\.]+', '', text)`: the leading digits and the whole
   * run of separators after them are cut off; without such digits and
   * separators the text is unchanged.
   */
  function TrimLeadingNumber(s: string): string {
    var q := LeadingDigitsEnd(s);
    var b := SepsEnd(s, q);
    if 0 < q < b then s[b..] else s
  }

  /** Every match's digits end where the leading digits end, and its separators stop at or before the run's end. */
  lemma LeadingDigitsAt(s: string, q: nat, b: nat)
    requires LeadingMatch(s, q, b)
    ensures LeadingDigitsEnd(s) == q && b <= SepsEnd(s, q) && LeadingMatch(s, q, SepsEnd(s, q))
  {
    assert !IsDigit(s[q]);
  }

  /** When the pattern matches, the greedy quantifiers take the longest match, and only one: `^` anchors it at the start. */
  lemma LeadingRemovesLongestMatch(s: string, q: nat, b: nat)
    requires LeadingMatch(s, q, b)
    requires forall q': nat, b': nat :: LeadingMatch(s, q', b') ==> b' <= b
    ensures TrimLeadingNumber(s) == s[b..]
  {
    LeadingDigitsAt(s, q, b);
    assert LeadingMatch(s, q, SepsEnd(s, q));
  }

  /** Without a match the text is unchanged. */
  lemma LeadingNoMatch(s: string)
    requires forall q: nat, b: nat :: !LeadingMatch(s, q, b)
    ensures TrimLeadingNumber(s) == s
  {
    var q0 := LeadingDigitsEnd(s);
    var b0 := SepsEnd(s, q0);
    assert !LeadingMatch(s, q0, b0);
  }

  /** `text.replace('Logistics', 'Log')`. */
  function ShortenLogistics(s: string): string {
    ReplaceAll(s, "Logistics", "Log")
  }

  /** Each "Logistics" found is replaced: the text is six characters shorter per occurrence, and a text without one is unchanged. */
  lemma ShortenLogisticsLength(s: string)
    ensures |ShortenLogistics(s)| == |s| - 6 * Occurrences(s, "Logistics")
    ensures (forall i :: 0 <= i <= |s| ==> !StartsWith(s[i..], "Logistics")) ==> ShortenLogistics(s) == s
  {
    ReplaceAllLength(s, "Logistics", "Log");
    if forall i :: 0 <= i <= |s| ==> !StartsWith(s[i..], "Logistics") {
      ReplaceAllAbsent(s, "Logistics", "Log");
    }
  }

  /**
   * `clean_text_basic(text)`: the trailing number, then the leading number
   * is removed, "Logistics" shortened and the blanks stripped. The result
   * neither starts nor ends with a blank, is never longer than the cell's
   * text, and a missing value gives "".
   */
  function CleanTextBasic(c: Cell): (r: string)
    ensures r != [] ==> !IsPySpace(r[0]) && !IsPySpace(r[|r| - 1])
    ensures |r| <= |CellText(c)|
    ensures c.Missing? ==> r == ""
  {
    var t := CellText(c);
    var t' := TrimLeadingNumber(TrimTrailingNumber(t));
    ShortenLogisticsLength(t');
    PyStrip(ShortenLogistics(t'))
  }

  /** What the grouping loop keeps: the name mapping and the set of names already placed. */
  datatype Grouping = Grouping(mapping: map<string, string>, processed: set<string>)

  /** Some match of `k` scores at least the threshold. */
  predicate Scored(matches: seq<(string, int)>, k: string, threshold: int) {
    exists j :: 0 <= j < |matches| && matches[j].0 == k && matches[j].1 >= threshold
  }

  /** A match of `k` scoring enough is in the list without its last entry, or is that entry. */
  lemma ScoredSnoc(matches: seq<(string, int)>, threshold: int)
    requires matches != []
    ensures var n := |matches| - 1;
      forall k :: Scored(matches, k, threshold) <==>
        Scored(matches[..n], k, threshold) || (matches[n].0 == k && matches[n].1 >= threshold)
  {
    var n := |matches| - 1;
    forall k
      ensures Scored(matches, k, threshold) <==>
        Scored(matches[..n], k, threshold) || (matches[n].0 == k && matches[n].1 >= threshold)
    {
      if Scored(matches, k, threshold) {
        var j :| 0 <= j < |matches| && matches[j].0 == k && matches[j].1 >= threshold;
        if j < n {
          assert matches[..n][j] == matches[j];
        }
      }
      if Scored(matches[..n], k, threshold) {
        var j :| 0 <= j < n && matches[..n][j].0 == k && matches[..n][j].1 >= threshold;
        assert matches[j] == matches[..n][j];
      }
    }
  }

  /**
   * What the inner loop for one master does, from `g` to `r`: every match
   * scoring at least the threshold is mapped to the master and marked as
   * placed; no other name changes; nothing is unplaced.
   */
  ghost predicate AssignedBy(g: Grouping, matches: seq<(string, int)>, master: string, threshold: int, r: Grouping) {
    && (forall j :: 0 <= j < |matches| && matches[j].1 >= threshold ==>
          matches[j].0 in r.mapping && r.mapping[matches[j].0] == master && matches[j].0 in r.processed)
    && (forall k :: !Scored(matches, k, threshold) ==>
          && (k in r.mapping <==> k in g.mapping) && (k in g.mapping ==> r.mapping[k] == g.mapping[k])
          && (k in r.processed <==> k in g.processed))
    && (forall k :: k in r.mapping ==> k in g.mapping || k in r.processed)
    && g.processed <= r.processed
  }

  /** One match more: the step the inner loop takes for it keeps `AssignedBy`. */
  lemma AssignStep(g: Grouping, matches: seq<(string, int)>, master: string, threshold: int, h: Grouping)
    requires matches != [] && AssignedBy(g, matches[..|matches| - 1], master, threshold, h)
    ensures var last := matches[|matches| - 1];
      AssignedBy(g, matches, master, threshold,
                 if last.1 >= threshold then Grouping(h.mapping[last.0 := master], h.processed + {last.0}) else h)
  {
    var n := |matches| - 1;
    var last := matches[n];
    var r := if last.1 >= threshold then Grouping(h.mapping[last.0 := master], h.processed + {last.0}) else h;
    ScoredSnoc(matches, threshold);
    forall j | 0 <= j < |matches| && matches[j].1 >= threshold
      ensures matches[j].0 in r.mapping && r.mapping[matches[j].0] == master && matches[j].0 in r.processed
    {
      if j < n {
        assert matches[..n][j] == matches[j];
      }
    }
  }

  /** The inner loop for one master, match by match. */
  function Assign(g: Grouping, matches: seq<(string, int)>, master: string, threshold: int): (r: Grouping)
    ensures AssignedBy(g, matches, master, threshold, r)
  {
    if matches == [] then g
    else
      var h := Assign(g, matches[..|matches| - 1], master, threshold);
      var last := matches[|matches| - 1];
      AssignStep(g, matches, master, threshold, h);
      if last.1 >= threshold then Grouping(h.mapping[last.0 := master], h.processed + {last.0}) else h
  }

  /** One step of the outer loop: an empty name or a name already placed is skipped, any other is a master. */
  function Visit(g: Grouping, name: string, names: seq<string>, threshold: int,
                 extract: (string, seq<string>) -> seq<(string, int)>): Grouping {
    if name == "" || name in g.processed then g else Assign(g, extract(name, names), name, threshold)
  }

  /** The state after the outer loop has visited `visited`, matching each master against all of `names`. */
  function Grouped(visited: seq<string>, names: seq<string>, threshold: int,
                   extract: (string, seq<string>) -> seq<(string, int)>): Grouping {
    if visited == [] then Grouping(map[], {})
    else Visit(Grouped(visited[..|visited| - 1], names, threshold, extract), visited[|visited| - 1], names, threshold, extract)
  }

  /** A skipped name changes nothing, and a master's step places every match scoring at least the threshold under it. */
  lemma VisitPlacesMatches(g: Grouping, name: string, names: seq<string>, threshold: int,
                           extract: (string, seq<string>) -> seq<(string, int)>)
    ensures name == "" || name in g.processed ==> Visit(g, name, names, threshold, extract) == g
    ensures name != "" && name !in g.processed ==>
      var r := Visit(g, name, names, threshold, extract);
      var matches := extract(name, names);
      forall j :: 0 <= j < |matches| && matches[j].1 >= threshold ==>
        matches[j].0 in r.mapping && r.mapping[matches[j].0] == name && matches[j].0 in r.processed
  {
  }

  /** Every key of the mapping is a placed name and every value a non-empty name of `vs`. */
  predicate PlacedUnder(g: Grouping, vs: seq<string>) {
    forall k :: k in g.mapping ==> k in g.processed && g.mapping[k] in vs && g.mapping[k] != ""
  }

  /** A master's step keeps `PlacedUnder` when the master is a non-empty name of `vs`. */
  lemma AssignKeepsPlaced(h: Grouping, matches: seq<(string, int)>, master: string, threshold: int, vs: seq<string>)
    requires PlacedUnder(h, vs) && master in vs && master != ""
    ensures PlacedUnder(Assign(h, matches, master, threshold), vs)
  {
    var g := Assign(h, matches, master, threshold);
    forall k | k in g.mapping
      ensures k in g.processed && g.mapping[k] in vs && g.mapping[k] != ""
    {
      if Scored(matches, k, threshold) {
        var j :| 0 <= j < |matches| && matches[j].0 == k && matches[j].1 >= threshold;
        assert g.mapping[k] == master;
      } else {
        assert k in h.mapping && g.mapping[k] == h.mapping[k];
      }
    }
  }

  /** Every key of the mapping is a placed name, and every value is a non-empty visited name. */
  lemma {:induction false} GroupedKeysPlaced(visited: seq<string>, names: seq<string>, threshold: int,
                                             extract: (string, seq<string>) -> seq<(string, int)>)
    ensures PlacedUnder(Grouped(visited, names, threshold, extract), visited)
  {
    if visited != [] {
      var init := visited[..|visited| - 1];
      GroupedKeysPlaced(init, names, threshold, extract);
      var h := Grouped(init, names, threshold, extract);
      var name := visited[|visited| - 1];
      assert forall x :: x in init ==> x in visited;
      assert PlacedUnder(h, visited);
      if name != "" && name !in h.processed {
        AssignKeepsPlaced(h, extract(name, names), name, threshold, visited);
      }
    }
  }

  /** Names are only ever added to the placed set. */
  lemma {:induction false} GroupedProcessedGrows(visited: seq<string>, n: nat, names: seq<string>, threshold: int,
                                                 extract: (string, seq<string>) -> seq<(string, int)>)
    requires n <= |visited|
    ensures Grouped(visited[..n], names, threshold, extract).processed <= Grouped(visited, names, threshold, extract).processed
    decreases |visited| - n
  {
    if n < |visited| {
      var init := visited[..|visited| - 1];
      assert visited[..n] == init[..n];
      GroupedProcessedGrows(init, n, names, threshold, extract);
    } else {
      assert visited[..n] == visited;
    }
  }

  /** The inner loop of `get_standard_mapping`: it walks the matches in order and does what `Assign` describes. */
  method PlaceMatches(standardMap: map<string, string>, processed: set<string>, matches: seq<(string, int)>,
                      masterName: string, threshold: int)
    returns (standardMap': map<string, string>, processed': set<string>)
    ensures Grouping(standardMap', processed') == Assign(Grouping(standardMap, processed), matches, masterName, threshold)
  {
    standardMap', processed' := standardMap, processed;
    var j := 0;
    while j < |matches|
      invariant 0 <= j <= |matches|
      invariant Grouping(standardMap', processed')
             == Assign(Grouping(standardMap, processed), matches[..j], masterName, threshold)
    {
      assert matches[..j + 1][..j] == matches[..j];
      var (m, score) := matches[j];
      if score >= threshold {
        standardMap' := standardMap'[m := masterName];
        processed' := processed' + {m};
      }
      j := j + 1;
    }
    assert matches[..|matches|] == matches;
  }

  /**
   * `get_standard_mapping(names, threshold)`, with `extract` standing for
   * `process.extract(name, names, limit=10)`: the names are visited in
   * order and each one not skipped has its matches placed under it.
   */
  method GetStandardMapping(names: seq<string>, threshold: int, extract: (string, seq<string>) -> seq<(string, int)>)
    returns (standardMap: map<string, string>)
    ensures standardMap == Grouped(names, names, threshold, extract).mapping
    ensures forall k :: k in standardMap ==> standardMap[k] in names && standardMap[k] != ""
  {
    standardMap := map[];
    var processed: set<string> := {};
    var i := 0;
    while i < |names|
      invariant 0 <= i <= |names|
      invariant Grouping(standardMap, processed) == Grouped(names[..i], names, threshold, extract)
    {
      assert names[..i + 1][..i] == names[..i];
      var name := names[i];
      if name == "" || name in processed {
        i := i + 1;
        continue;
      }
      standardMap, processed := PlaceMatches(standardMap, processed, extract(name, names), name, threshold);
      i := i + 1;
    }
    assert names[..|names|] == names;
    GroupedKeysPlaced(names, names, threshold, extract);
  }
}
