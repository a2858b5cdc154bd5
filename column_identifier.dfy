/**
 * The column resolver: header normalisation, the first-match searches of the best-match
 * helper, and the resolver itself, which maps dataset headers and optional hints to a
 * column mapping.
 */
module ColumnIdentifier {
  import opened Wrappers
  import opened Schemas
  import opened PyText

  // ---------------------------------------------------------------------------
  // Header normalisation
  // ---------------------------------------------------------------------------

  /** The characters the normaliser keeps: `[a-z0-9]`. */
  predicate IsLowerAlnum(c: char) {
    'a' <= c <= 'z' || '0' <= c <= '9'
  }

  /** Drops a leading run of characters outside `[a-z0-9]`. */
  function DropRun(s: string): (r: string)
    ensures |r| <= |s|
  {
    if |s| != 0 && !IsLowerAlnum(s[0]) then DropRun(s[1..]) else s
  }

  /** `re.sub(r"[^a-z0-9]+", " ", s)`: each maximal run of other characters becomes one space. */
  function ReplaceRuns(s: string): string
    decreases |s|
  {
    if |s| == 0 then []
    else if IsLowerAlnum(s[0]) then [s[0]] + ReplaceRuns(s[1..])
    else " " + ReplaceRuns(DropRun(s[1..]))
  }

  /** Drops a leading run of whitespace. */
  function DropSpaces(s: string): (r: string)
    ensures |r| <= |s|
  {
    if |s| != 0 && IsSpace(s[0]) then DropSpaces(s[1..]) else s
  }

  /** `re.sub(r"\s+", " ", s)`: each maximal run of whitespace becomes one space. */
  function CollapseSpaces(s: string): string
    decreases |s|
  {
    if |s| == 0 then []
    else if IsSpace(s[0]) then " " + CollapseSpaces(DropSpaces(s[1..]))
    else [s[0]] + CollapseSpaces(s[1..])
  }

  /** Every character is in `[a-z0-9 ]`. */
  ghost predicate OnlyWordChars(s: string) {
    forall i :: 0 <= i < |s| ==> IsLowerAlnum(s[i]) || s[i] == ' '
  }

  /** No two spaces are adjacent. */
  ghost predicate SingleSpaced(s: string) {
    forall i, j :: 0 <= i < j < |s| && j == i + 1 ==> s[i] != ' ' || s[j] != ' '
  }

  /** The shape of a normalised header: words of `[a-z0-9]` separated by single spaces. */
  ghost predicate IsNormalized(s: string) {
    OnlyWordChars(s) && SingleSpaced(s) && (|s| == 0 || (s[0] != ' ' && s[|s| - 1] != ' '))
  }

  /** `_normalize`: lower-case, one space per run of other characters, trimmed. */
  function Normalize(header: string): string {
    Strip(CollapseSpaces(ReplaceRuns(Lower(Strip(header)))))
  }

  /** What `DropRun` drops is a run of characters outside `[a-z0-9]`, and what it keeps starts inside. */
  lemma {:induction false} DropRunFacts(s: string)
    ensures DropRun(s) == s[|s| - |DropRun(s)|..]
    ensures |DropRun(s)| == 0 || IsLowerAlnum(DropRun(s)[0])
  {
    if |s| != 0 && !IsLowerAlnum(s[0]) {
      DropRunFacts(s[1..]);
    }
  }

  /** A word character, or a space before a word, put in front of a well-shaped string keeps its shape. */
  lemma ConsKeepsShape(c: char, rest: string)
    requires IsLowerAlnum(c) || (c == ' ' && (|rest| == 0 || IsLowerAlnum(rest[0])))
    requires OnlyWordChars(rest) && SingleSpaced(rest)
    ensures OnlyWordChars([c] + rest) && SingleSpaced([c] + rest)
  {
    var r := [c] + rest;
    assert forall i :: 0 < i < |r| ==> r[i] == rest[i - 1];
  }

  /** The substitution leaves words of `[a-z0-9]` separated by single spaces, and keeps a word character in front. */
  lemma {:induction false} ReplaceRunsShape(s: string)
    ensures OnlyWordChars(ReplaceRuns(s)) && SingleSpaced(ReplaceRuns(s))
    ensures |s| != 0 && IsLowerAlnum(s[0]) ==> |ReplaceRuns(s)| != 0 && ReplaceRuns(s)[0] == s[0]
    decreases |s|
  {
    if |s| != 0 {
      if IsLowerAlnum(s[0]) {
        ReplaceRunsShape(s[1..]);
        ConsKeepsShape(s[0], ReplaceRuns(s[1..]));
      } else {
        var t := DropRun(s[1..]);
        DropRunFacts(s[1..]);
        ReplaceRunsShape(t);
        ConsKeepsShape(' ', ReplaceRuns(t));
      }
    }
  }

  /** The normal form consists of words of `[a-z0-9]` separated by single spaces, trimmed. */
  lemma NormalizeShape(header: string)
    ensures IsNormalized(Normalize(header))
  {
    var cleaned := ReplaceRuns(Lower(Strip(header)));
    ReplaceRunsShape(Lower(Strip(header)));
    CollapseUnchanged(cleaned);
    StripKeepsShape(cleaned);
  }

  lemma {:induction false} CollapseUnchanged(s: string)
    requires OnlyWordChars(s) && SingleSpaced(s)
    ensures CollapseSpaces(s) == s
    decreases |s|
  {
    if |s| != 0 {
      var rest := s[1..];
      assert OnlyWordChars(rest) && SingleSpaced(rest) by {
        assert forall i :: 0 <= i < |rest| ==> rest[i] == s[i + 1];
      }
      CollapseUnchanged(rest);
      if IsSpace(s[0]) {
        assert s[0] == ' ';
        if |rest| != 0 {
          assert s[1] != ' ';
          assert !IsSpace(rest[0]);
        }
        assert DropSpaces(rest) == rest;
        assert s == " " + rest;
      } else {
        assert s == [s[0]] + rest;
      }
    }
  }

  lemma StripKeepsShape(s: string)
    requires OnlyWordChars(s) && SingleSpaced(s)
    ensures IsNormalized(Strip(s))
  {
    var left := StripLeft(s);
    StripLeftFacts(s);
    StripRightFacts(left);
    StripTrims(s);
    SliceKeepsShape(s, |s| - |left|, |s|);
    SliceKeepsShape(left, 0, |StripRight(left)|);
  }

  lemma SliceKeepsShape(s: string, from: nat, to: nat)
    requires from <= to <= |s| && OnlyWordChars(s) && SingleSpaced(s)
    ensures OnlyWordChars(s[from..to]) && SingleSpaced(s[from..to])
  {
    var t := s[from..to];
    assert forall i :: 0 <= i < |t| ==> t[i] == s[from + i];
  }

  /** A normalised header is its own normal form. */
  lemma NormalizeFixesNormalized(t: string)
    requires IsNormalized(t)
    ensures Normalize(t) == t
  {
    assert Trimmed(t) by {
      if |t| != 0 {
        assert IsLowerAlnum(t[0]) && IsLowerAlnum(t[|t| - 1]);
      }
    }
    StripUnchanged(t);
    assert Lower(t) == t;
    ReplaceRunsUnchanged(t);
    CollapseUnchanged(t);
  }

  lemma {:induction false} ReplaceRunsUnchanged(s: string)
    requires OnlyWordChars(s) && SingleSpaced(s) && (|s| == 0 || s[|s| - 1] != ' ')
    ensures ReplaceRuns(s) == s
    decreases |s|
  {
    if |s| != 0 {
      var rest := s[1..];
      assert OnlyWordChars(rest) && SingleSpaced(rest) by {
        assert forall i :: 0 <= i < |rest| ==> rest[i] == s[i + 1];
      }
      ReplaceRunsUnchanged(rest);
      if !IsLowerAlnum(s[0]) {
        assert s[0] == ' ' && |s| > 1 && s[1] != ' ';
        assert IsLowerAlnum(rest[0]);
        assert DropRun(rest) == rest;
        assert s == " " + rest;
      } else {
        assert s == [s[0]] + rest;
      }
    }
  }

  /** Normalising twice changes nothing. */
  lemma NormalizeIdempotent(header: string)
    ensures Normalize(Normalize(header)) == Normalize(header)
  {
    NormalizeShape(header);
    NormalizeFixesNormalized(Normalize(header));
  }

  // ---------------------------------------------------------------------------
  // First-match searches
  // ---------------------------------------------------------------------------

  /** A dataset header paired with its normalised form, in input order. */
  type Column = (string, string)

  /** `{name: _normalize(name) for name in columns}`, kept in input order. */
  function NormalizedColumns(columns: seq<string>): (r: seq<Column>)
    ensures |r| == |columns|
  {
    seq(|columns|, i requires 0 <= i < |columns| => (columns[i], Normalize(columns[i])))
  }

  /** `s.replace(" ", "")`. */
  function RemoveSpaces(s: string): string {
    RemoveChar(s, ' ')
  }

  /** A normalised header matches a candidate list exactly, or once spaces are removed. */
  predicate MatchesCandidate(normalized: string, candidates: seq<string>) {
    normalized in candidates
    || RemoveSpaces(normalized) in (set x | x in candidates :: RemoveSpaces(x))
  }

  /** The position of the first column matching a candidate, or the number of columns. */
  function FirstCandidateIndex(columns: seq<Column>, candidates: seq<string>): (k: nat)
    ensures k <= |columns|
    ensures forall j :: 0 <= j < k ==> !MatchesCandidate(columns[j].1, candidates)
    ensures k < |columns| ==> MatchesCandidate(columns[k].1, candidates)
  {
    if columns == [] then 0
    else if MatchesCandidate(columns[0].1, candidates) then 0
    else 1 + FirstCandidateIndex(columns[1..], candidates)
  }

  /** The position of the first column whose normal form starts with `prefix`, or the number of columns. */
  function FirstPrefixIndex(columns: seq<Column>, prefix: string): (k: nat)
    ensures k <= |columns|
    ensures forall j :: 0 <= j < k ==> !StartsWith(columns[j].1, prefix)
    ensures k < |columns| ==> StartsWith(columns[k].1, prefix)
  {
    if columns == [] then 0
    else if StartsWith(columns[0].1, prefix) then 0
    else 1 + FirstPrefixIndex(columns[1..], prefix)
  }

  /** The error `_find_best_match` raises: the key has no first word. */
  datatype ResolveError = IndexError

  /**
   * `_find_best_match`: the first column equal to a normalised target (directly or without
   * spaces), otherwise the first column starting with the normalised first word of `key`.
   * The targets are the normalised fallback candidates, or `key` itself when there are none.
   */
  function FindBestMatch(key: string, columns: seq<Column>, fallback: seq<string>): Result<Option<string>, ResolveError> {
    var targets := if |fallback| != 0 then NormalizeAll(fallback) else [Normalize(key)];
    var k := FirstCandidateIndex(columns, targets);
    if k < |columns| then Ok(Some(columns[k].0))
    else if |columns| == 0 then Ok(None)  // the prefix loop never splits the key
    else
      match FirstWord(key)
      case None => Err(IndexError)
      case Some(word) =>
        var p := FirstPrefixIndex(columns, Normalize(word));
        Ok(if p < |columns| then Some(columns[p].0) else None)
  }

  /**
   * A best match is one of the columns' headers, and the helper raises exactly when there
   * are columns, none equals a target, and the key has no first word.
   */
  lemma FindBestMatchFacts(key: string, columns: seq<Column>, fallback: seq<string>)
    ensures var r := FindBestMatch(key, columns, fallback);
      r.Ok? && r.value.Some? ==> exists i :: 0 <= i < |columns| && columns[i].0 == r.value.value
    ensures FindBestMatch(key, columns, fallback).Err? <==>
      |columns| != 0 && FirstWord(key).None?
      && FirstCandidateIndex(columns, if |fallback| != 0 then NormalizeAll(fallback) else [Normalize(key)]) == |columns|
  {
  }


  /** The normal forms of a list of labels, in order. */
  function NormalizeAll(labels: seq<string>): (r: seq<string>)
    ensures |r| == |labels|
  {
    seq(|labels|, i requires 0 <= i < |labels| => Normalize(labels[i]))
  }

  // ---------------------------------------------------------------------------
  // The resolver, entry by entry
  // ---------------------------------------------------------------------------

  /** The dataset headers, in input order: the keys of the normalised-column table. */
  function Headers(columns: seq<Column>): (r: seq<string>)
    ensures |r| == |columns|
  {
    seq(|columns|, k requires 0 <= k < |columns| => columns[k].0)
  }

  /**
   * The entry the hint loop gives the metric named `name`: the hinted header when it is
   * verbatim a dataset header, else the relaxed match of the normalised hint when that is a
   * non-empty header, else None; Err when the relaxed match raises.
   */
  function HintFor(name: string, columns: seq<Column>, hints: map<string, string>): Result<Header, ResolveError> {
    if name !in hints then Ok(None)
    else
      var hinted := hints[name];
      if hinted in Headers(columns) then Ok(Some(hinted))
      else
        match FindBestMatch(Normalize(hinted), columns, [])
        case Err(e) => Err(e)
        case Ok(target) => Ok(if Truthy(target) then target else None)
  }

  /** The key has a first word, so the best-match helper never raises on it. */
  predicate HasWord(key: string) {
    FirstWord(key).Some?
  }

  /**
   * The entry automatic matching gives the metric named `name` with the given synonyms,
   * starting from its entry after the hint loop: a non-empty entry is kept; otherwise the
   * first column matching a candidate, and failing that a non-empty best match.
   */
  function AutoFor(name: string, synonyms: seq<string>, columns: seq<Column>, current: Header): Header
    requires HasWord(name)
  {
    if Truthy(current) then current
    else
      var candidates := synonyms + [name];
      var k := FirstCandidateIndex(columns, candidates);
      var afterSynonyms := if k < |columns| then Some(columns[k].0) else current;
      if Truthy(afterSynonyms) then afterSynonyms
      else
        var found := FindBestMatch(name, columns, candidates);
        assert found.Ok? by { FindBestMatchFacts(name, columns, candidates); }
        if Truthy(found.value) then found.value else afterSynonyms
  }

  /** The labels automatic matching compares against: the synonyms, then the canonical name. */
  function Candidates(c: Canonical): seq<string> {
    Synonyms(c) + [Name(c)]
  }

  /** A canonical name is one word, so the prefix step never fails for it. */
  lemma NameIsOneWord(c: Canonical)
    ensures FirstWord(Name(c)) == Some(Name(c))
  {
    var n := Name(c);
    assert forall i :: 0 <= i < |n| ==> n[i] == '_' || IsLowerAlnum(n[i]);
    FirstWordOfWord(n);
  }

  /** The entry of `c` once the hint loop has run. */
  function HintedEntry(c: Canonical, columns: seq<Column>, hints: map<string, string>): Result<Header, ResolveError> {
    HintFor(Name(c), columns, hints)
  }

  /** The final entry of `c`, starting from its entry after the hint loop. */
  function AutoEntry(c: Canonical, columns: seq<Column>, hinted: Header): Header {
    NameIsOneWord(c);
    AutoFor(Name(c), Synonyms(c), columns, hinted)
  }

  /** Automatic matching leaves a non-empty header alone. */
  lemma AutoForKeepsTruthy(name: string, synonyms: seq<string>, columns: seq<Column>, h: Header)
    requires HasWord(name) && Truthy(h)
    ensures AutoFor(name, synonyms, columns, h) == h
  {
  }

  /** Some hint makes the relaxed match raise. */
  predicate HintFails(columns: seq<Column>, hints: map<string, string>) {
    exists c :: HintedEntry(c, columns, hints).Err?
  }

  /** The resolver's table after both loops, one entry per canonical metric in declaration order. */
  function FinalEntries(columns: seq<Column>, hints: map<string, string>): (r: seq<Header>)
    requires !HintFails(columns, hints)
    ensures |r| == |ALL_CANONICALS|
  {
    seq(|ALL_CANONICALS|, k requires 0 <= k < |ALL_CANONICALS| =>
      AutoEntry(ALL_CANONICALS[k], columns, HintedEntry(ALL_CANONICALS[k], columns, hints).value))
  }

  /** What `SemanticColumnIdentifier.__call__` returns: the mapping, or the error it raises. */
  function Identify(columns: seq<string>, hints: map<string, string>): (r: Result<ColumnMapping, ResolveError>)
    ensures r.Err? <==> HintFails(NormalizedColumns(columns), hints)
    ensures r.Ok? ==> forall c ::
      Resolve(r.value, c) == AutoEntry(c, NormalizedColumns(columns), HintedEntry(c, NormalizedColumns(columns), hints).value)
  {
    var normalizedColumns := NormalizedColumns(columns);
    if HintFails(normalizedColumns, hints) then Err(IndexError)
    else Ok(FromEntries(FinalEntries(normalizedColumns, hints)))
  }

  // ---------------------------------------------------------------------------
  // The resolver as the source runs it
  // ---------------------------------------------------------------------------

  /** The canonical names, in declaration order. */
  function CanonicalNames(): (r: seq<string>)
    ensures |r| == |ALL_CANONICALS|
  {
    seq(|ALL_CANONICALS|, k requires 0 <= k < |ALL_CANONICALS| => Name(ALL_CANONICALS[k]))
  }

  /** The synonyms of each canonical metric, in declaration order. */
  function CanonicalSynonyms(): (r: seq<seq<string>>)
    ensures |r| == |ALL_CANONICALS|
  {
    seq(|ALL_CANONICALS|, k requires 0 <= k < |ALL_CANONICALS| => Synonyms(ALL_CANONICALS[k]))
  }

  /**
   * `SemanticColumnIdentifier.__call__`: a table with one entry per canonical metric, filled
   * in place first from the hints, then by automatic matching.
   */
  method IdentifyColumns(columns: seq<string>, hints: map<string, string>) returns (r: Result<ColumnMapping, ResolveError>)
    ensures r == Identify(columns, hints)
  {
    var normalizedColumns := NormalizedColumns(columns);
    var names := CanonicalNames();
    var hinted := ApplyHints(names, normalizedColumns, hints);
    if hinted.Err? {
      ghost var k :| 0 <= k < |names| && HintFor(names[k], normalizedColumns, hints).Err?;
      assert HintedEntry(ALL_CANONICALS[k], normalizedColumns, hints).Err?;
      return Err(IndexError);
    }
    assert !HintFails(normalizedColumns, hints) by {
      forall c ensures HintedEntry(c, normalizedColumns, hints).Ok? {
        assert names[Ordinal(c)] == Name(c);
      }
    }
    var synonyms := CanonicalSynonyms();
    forall k | 0 <= k < |names| ensures HasWord(names[k]) {
      NameIsOneWord(ALL_CANONICALS[k]);
    }
    var table := AutoMatch(names, synonyms, normalizedColumns, hinted.value);
    assert table == FinalEntries(normalizedColumns, hints);
    r := Ok(FromEntries(table));
  }

  /**
   * The hint loop's state after the first `i` metrics, given each metric's hint result: the
   * table so far, or the error that ended the call.
   */
  function HintTable(results: seq<Result<Header, ResolveError>>, i: nat): (r: Result<seq<Header>, ResolveError>)
    requires i <= |results|
    ensures r.Ok? ==> |r.value| == |results|
  {
    if i == 0 then Ok(seq(|results|, _ => None))
    else
      match HintTable(results, i - 1)
      case Err(e) => Err(e)
      case Ok(table) =>
        match results[i - 1]
        case Err(e) => Err(e)
        case Ok(entry) => Ok(if entry.Some? then table[i - 1 := entry] else table)
  }

  /**
   * After `i` metrics the hint loop has failed exactly when one of their hints failed;
   * otherwise each of them holds its hint result and every later entry is still None.
   */
  lemma {:induction false} HintTableFacts(results: seq<Result<Header, ResolveError>>, i: nat)
    requires i <= |results|
    ensures HintTable(results, i).Err? <==> exists k :: 0 <= k < i && results[k].Err?
    ensures HintTable(results, i).Ok? ==>
      (forall k :: 0 <= k < i ==> HintTable(results, i).value[k] == results[k].value) &&
      (forall k :: i <= k < |results| ==> HintTable(results, i).value[k] == None)
  {
    if i != 0 {
      HintTableFacts(results, i - 1);
      if HintTable(results, i - 1).Err? {
        var k :| 0 <= k < i - 1 && results[k].Err?;
      }
    }
  }

  /** A hint loop that finished over all its metrics met no failing hint and holds every result. */
  lemma HintTableOk(results: seq<Result<Header, ResolveError>>, table: seq<Header>)
    requires HintTable(results, |results|) == Ok(table)
    ensures |table| == |results|
    ensures forall k :: 0 <= k < |results| ==> results[k].Ok? && table[k] == results[k].value
  {
    HintTableFacts(results, |results|);
  }

  /**
   * A hint loop that ran over every metric without failing has not met a failing hint, and
   * holds each metric's hint result.
   */
  lemma HintTableComplete(names: seq<string>, columns: seq<Column>, hints: map<string, string>,
                          results: seq<Result<Header, ResolveError>>, table: seq<Header>)
    requires |results| == |names|
    requires forall k :: 0 <= k < |names| ==> results[k] == HintFor(names[k], columns, hints)
    requires HintTable(results, |names|) == Ok(table)
    ensures |table| == |names|
    ensures forall k :: 0 <= k < |names| ==> HintFor(names[k], columns, hints).Ok? && table[k] == HintFor(names[k], columns, hints).value
  {
    HintTableOk(results, table);
  }

  /**
   * The hint loop over the metrics named `names`: a fresh table with every entry None, then
   * the entry of each hinted metric set from its hint. The metrics are visited in table
   * order; each step writes only its own entry and any failing step fails the call, so the
   * order of the hints does not matter.
   */
  method ApplyHints(names: seq<string>, columns: seq<Column>, hints: map<string, string>)
    returns (r: Result<seq<Header>, ResolveError>)
    ensures r.Err? <==> exists k :: 0 <= k < |names| && HintFor(names[k], columns, hints).Err?
    ensures r.Ok? ==> |r.value| == |names|
    ensures r.Ok? ==> forall k :: 0 <= k < |r.value| ==> r.value[k] == HintFor(names[k], columns, hints).value
  {
    ghost var results := seq(|names|, k requires 0 <= k < |names| => HintFor(names[k], columns, hints));
    var table: seq<Header> := seq(|names|, _ => None);
    var i := 0;
    while i < |names|
      invariant 0 <= i <= |names|
      invariant HintTable(results, i) == Ok(table)
    {
      var entry := HintStep(names[i], columns, hints);
      assert results[i] == entry;
      if entry.Err? {
        return Err(entry.error);
      }
      if entry.value.Some? {
        table := table[i := entry.value];
      }
      i := i + 1;
    }
    HintTableComplete(names, columns, hints, results, table);
    return Ok(table);
  }

  /** One step of the hint loop: the entry `name` gets from its hint, Ok(None) when it gets none. */
  method HintStep(name: string, columns: seq<Column>, hints: map<string, string>) returns (entry: Result<Header, ResolveError>)
    ensures entry == HintFor(name, columns, hints)
  {
    if name !in hints {
      return Ok(None);
    }
    var hinted := hints[name];
    if hinted in Headers(columns) {
      return Ok(Some(hinted));
    }
    var target := FindBestMatch(Normalize(hinted), columns, []);
    if target.Err? {
      return Err(target.error);
    }
    return Ok(if Truthy(target.value) then target.value else None);
  }

  /**
   * A loop that overwrites entry after entry holds `done[..i] + rest[i..]` after `i` entries:
   * the entry it visits next is still the original, and writing the new value there moves
   * the split one place on.
   */
  lemma SpliceStep<T>(done: seq<T>, rest: seq<T>, table: seq<T>, i: nat, entry: T)
    requires |done| == |rest| && i < |rest|
    requires table == done[..i] + rest[i..]
    ensures table[i] == rest[i]
    ensures entry == done[i] ==> table[i := entry] == done[..i + 1] + rest[i + 1..]
  {
  }

  /** Once every entry is visited the splice is the new sequence. */
  lemma SpliceEnd<T>(done: seq<T>, rest: seq<T>)
    requires |done| == |rest|
    ensures done[..|done|] + rest[|rest|..] == done
  {
    assert rest[|rest|..] == [];
  }

  /**
   * The auto-match loop over the vocabulary, `names[k]` with synonyms `synonyms[k]`: every
   * entry that is not yet a non-empty header is matched.
   */
  method AutoMatch(names: seq<string>, synonyms: seq<seq<string>>, columns: seq<Column>, hinted: seq<Header>)
    returns (table: seq<Header>)
    requires |synonyms| == |hinted| == |names|
    requires forall k :: 0 <= k < |names| ==> HasWord(names[k])
    ensures |table| == |names|
    ensures forall k :: 0 <= k < |table| ==> table[k] == AutoFor(names[k], synonyms[k], columns, hinted[k])
  {
    ghost var autos := seq(|names|, k requires 0 <= k < |names| => AutoFor(names[k], synonyms[k], columns, hinted[k]));
    table := hinted;
    var i := 0;
    while i < |names|
      invariant 0 <= i <= |names|
      invariant table == autos[..i] + hinted[i..]
    {
      SpliceStep(autos, hinted, table, i, autos[i]);
      var entry := AutoStep(names[i], synonyms[i], columns, table[i]);
      table := table[i := entry];
      i := i + 1;
    }
    SpliceEnd(autos, hinted);
  }

  /**
   * The first column whose normal form matches a candidate, exactly or once spaces are
   * removed, as the inner loop of the auto-match loop finds it; `|columns|` when none does.
   */
  method FindCandidate(columns: seq<Column>, candidates: seq<string>) returns (j: nat)
    ensures j == FirstCandidateIndex(columns, candidates)
  {
    var compactCandidates := set x | x in candidates :: RemoveSpaces(x);
    j := 0;
    while j < |columns|
      invariant 0 <= j <= |columns|
      invariant forall k :: 0 <= k < j ==> !MatchesCandidate(columns[k].1, candidates)
    {
      var normalized := columns[j].1;
      if normalized in candidates {
        break;
      }
      if RemoveSpaces(normalized) in compactCandidates {
        break;
      }
      j := j + 1;
    }
    FirstCandidateIndexIsFirst(columns, candidates, j);
  }

  /** An index whose column matches, with no match before it, is the first match. */
  lemma FirstCandidateIndexIsFirst(columns: seq<Column>, candidates: seq<string>, j: nat)
    requires j <= |columns|
    requires forall k :: 0 <= k < j ==> !MatchesCandidate(columns[k].1, candidates)
    requires j < |columns| ==> MatchesCandidate(columns[j].1, candidates)
    ensures j == FirstCandidateIndex(columns, candidates)
  {
  }

  /**
   * One step of the auto-match loop: an entry that is already a non-empty header is kept;
   * otherwise the first column matching a candidate, else a non-empty best match of the
   * canonical name.
   */
  method AutoStep(name: string, synonyms: seq<string>, columns: seq<Column>, current: Header)
    returns (entry: Header)
    requires HasWord(name)
    ensures entry == AutoFor(name, synonyms, columns, current)
  {
    if Truthy(current) {
      AutoForKeepsTruthy(name, synonyms, columns, current);
      return current;
    }
    var candidates := synonyms + [name];
    var j := FindCandidate(columns, candidates);
    entry := if j < |columns| then Some(columns[j].0) else current;
    if Truthy(entry) {
      return;
    }
    FindBestMatchFacts(name, columns, candidates);
    var target := FindBestMatch(name, columns, candidates);
    if Truthy(target.value) {
      entry := target.value;
    }
  }

  // ---------------------------------------------------------------------------
  // What the resolver guarantees
  // ---------------------------------------------------------------------------

  /** The keys of the normalised-column table are the dataset headers themselves. */
  lemma HeadersOfNormalized(columns: seq<string>)
    ensures Headers(NormalizedColumns(columns)) == columns
  {
  }

  /** A header the hint loop picks is one of the dataset headers. */
  lemma HintForPicksHeader(name: string, columns: seq<Column>, hints: map<string, string>)
    ensures var r := HintFor(name, columns, hints);
      r.Ok? && r.value.Some? ==> r.value.value in Headers(columns)
  {
    if name in hints && hints[name] !in Headers(columns) {
      var target := FindBestMatch(Normalize(hints[name]), columns, []);
      FindBestMatchFacts(Normalize(hints[name]), columns, []);
      if target.Ok? && target.value.Some? {
        var i :| 0 <= i < |columns| && columns[i].0 == target.value.value;
        assert Headers(columns)[i] == columns[i].0;
      }
    }
  }

  /** Automatic matching only ever picks a dataset header. */
  lemma AutoForPicksHeader(name: string, synonyms: seq<string>, columns: seq<Column>, current: Header)
    requires HasWord(name)
    requires current.Some? ==> current.value in Headers(columns)
    ensures var r := AutoFor(name, synonyms, columns, current);
      r.Some? ==> r.value in Headers(columns)
  {
    var candidates := synonyms + [name];
    var k := FirstCandidateIndex(columns, candidates);
    if k < |columns| {
      assert Headers(columns)[k] == columns[k].0;
    }
    var found := FindBestMatch(name, columns, candidates);
    FindBestMatchFacts(name, columns, candidates);
    if found.Ok? && found.value.Some? {
      var i :| 0 <= i < |columns| && columns[i].0 == found.value.value;
      assert Headers(columns)[i] == columns[i].0;
    }
  }

  /** Every entry of the resolved mapping is None or one of the dataset headers. */
  lemma IdentifyPicksHeaders(columns: seq<string>, hints: map<string, string>)
    ensures var r := Identify(columns, hints);
      r.Ok? ==> forall c :: Resolve(r.value, c).Some? ==> Resolve(r.value, c).value in columns
  {
    var normalizedColumns := NormalizedColumns(columns);
    HeadersOfNormalized(columns);
    var r := Identify(columns, hints);
    if r.Ok? {
      forall c | Resolve(r.value, c).Some? ensures Resolve(r.value, c).value in columns {
        var hinted := HintedEntry(c, normalizedColumns, hints);
        HintForPicksHeader(Name(c), normalizedColumns, hints);
        NameIsOneWord(c);
        AutoForPicksHeader(Name(c), Synonyms(c), normalizedColumns, hinted.value);
      }
    }
  }

  /** Only the hints keyed by a canonical name count: the resolver filters out every other key. */
  lemma ForeignHintsIgnored(columns: seq<string>, hints: map<string, string>)
    ensures Identify(columns, hints) == Identify(columns, map k | k in hints && FromName(k).Some? :: hints[k])
  {
    var canonicalHints := map k | k in hints && FromName(k).Some? :: hints[k];
    var normalizedColumns := NormalizedColumns(columns);
    forall c ensures HintedEntry(c, normalizedColumns, hints) == HintedEntry(c, normalizedColumns, canonicalHints) {
      assert Name(c) in hints ==> FromName(Name(c)) == Some(c);
    }
    assert HintFails(normalizedColumns, hints) == HintFails(normalizedColumns, canonicalHints);
    if !HintFails(normalizedColumns, hints) {
      assert FinalEntries(normalizedColumns, hints) == FinalEntries(normalizedColumns, canonicalHints);
    }
  }

  /** A non-empty hint that is verbatim a dataset header fixes the entry, and automatic matching keeps it. */
  lemma VerbatimHintWins(columns: seq<string>, hints: map<string, string>, c: Canonical)
    requires Name(c) in hints && hints[Name(c)] in columns && |hints[Name(c)]| != 0
    ensures HintedEntry(c, NormalizedColumns(columns), hints) == Ok(Some(hints[Name(c)]))
    ensures var r := Identify(columns, hints);
      r.Ok? ==> Resolve(r.value, c) == Some(hints[Name(c)])
  {
    HeadersOfNormalized(columns);
    NameIsOneWord(c);
    AutoForKeepsTruthy(Name(c), Synonyms(c), NormalizedColumns(columns), Some(hints[Name(c)]));
  }

  /** A non-empty normal form has a first word; the empty one has none. */
  lemma NormalizedFirstWord(t: string)
    requires IsNormalized(t)
    ensures FirstWord(t).None? <==> |t| == 0
  {
    FirstWordFacts(t);
    if |t| != 0 {
      assert !IsSpace(t[0]);
    }
  }

  /** The first word of a normal form is its own normal form. */
  lemma NormalizedFirstWordIsNormal(t: string)
    requires IsNormalized(t) && |t| != 0
    ensures FirstWord(t).Some? && Normalize(FirstWord(t).value) == FirstWord(t).value
  {
    NormalizedFirstWord(t);
    var w := FirstWord(t).value;
    FirstWordIsWord(t);
    WordIsNormalized(w);
    NormalizeFixesNormalized(w);
  }

  /** The first word of a normal form is a non-empty run of `[a-z0-9]`. */
  lemma FirstWordIsWord(t: string)
    requires IsNormalized(t) && |t| != 0
    ensures FirstWord(t).Some? && |FirstWord(t).value| != 0
    ensures forall i :: 0 <= i < |FirstWord(t).value| ==> IsLowerAlnum(FirstWord(t).value[i])
  {
    FirstWordFacts(t);
    assert !IsSpace(t[0]);
    StripLeftFacts(t);
    var w := TakeWord(t);
    TakeWordFacts(t);
    forall i | 0 <= i < |w| ensures IsLowerAlnum(w[i]) {
      assert w[i] == t[i];
    }
  }

  lemma WordIsNormalized(w: string)
    requires forall i :: 0 <= i < |w| ==> IsLowerAlnum(w[i])
    ensures IsNormalized(w)
  {
  }

  /** A normal form matches the empty target exactly when it is empty. */
  lemma MatchesEmptyTarget(n: string)
    requires IsNormalized(n)
    ensures MatchesCandidate(n, [[]]) <==> |n| == 0
  {
    assert RemoveSpaces([]) == [];
    assert (set x | x in [[]] :: RemoveSpaces(x)) == {[]};
    if |n| != 0 {
      assert RemoveSpaces(n) == [n[0]] + RemoveSpaces(n[1..]);
    }
  }

  /**
   * The hint loop raises exactly when a canonical metric's hint is not a dataset header,
   * normalises to nothing, and there are columns none of which normalises to nothing.
   */
  lemma HintErrorIff(name: string, columns: seq<string>, hints: map<string, string>)
    ensures HintFor(name, NormalizedColumns(columns), hints).Err? <==>
      name in hints && hints[name] !in columns && |Normalize(hints[name])| == 0
      && |columns| != 0 && forall k :: 0 <= k < |columns| ==> |Normalize(columns[k])| != 0
  {
    HeadersOfNormalized(columns);
    var normalizedColumns := NormalizedColumns(columns);
    if name in hints && hints[name] !in columns {
      var key := Normalize(hints[name]);
      FindBestMatchFacts(key, normalizedColumns, []);
      NormalizeIdempotent(hints[name]);
      NormalizeShape(hints[name]);
      NormalizedFirstWord(key);
      if |key| == 0 {
        forall k | 0 <= k < |columns|
          ensures MatchesCandidate(normalizedColumns[k].1, [key]) <==> |Normalize(columns[k])| == 0
        {
          NormalizeShape(columns[k]);
          MatchesEmptyTarget(Normalize(columns[k]));
        }
        var f := FirstCandidateIndex(normalizedColumns, [key]);
        if f < |columns| {
          assert |Normalize(columns[f])| == 0;
        }
      }
    }
  }

  /**
   * A hint that is not verbatim a header picks the first column whose normal form equals
   * the normalised hint, directly or once spaces are removed.
   */
  lemma RelaxedHintMatch(name: string, columns: seq<Column>, hints: map<string, string>, j: nat)
    requires name in hints && hints[name] !in Headers(columns)
    requires j < |columns| && |columns[j].0| != 0
    requires MatchesCandidate(columns[j].1, [Normalize(hints[name])])
    requires forall k :: 0 <= k < j ==> !MatchesCandidate(columns[k].1, [Normalize(hints[name])])
    ensures HintFor(name, columns, hints) == Ok(Some(columns[j].0))
  {
    NormalizeIdempotent(hints[name]);
    FirstCandidateIndexIsFirst(columns, [Normalize(hints[name])], j);
  }

  /**
   * When no column equals the normalised hint, the hint picks the first column whose normal
   * form starts with the hint's first word.
   */
  lemma RelaxedHintPrefix(name: string, columns: seq<Column>, hints: map<string, string>, p: nat)
    requires name in hints && hints[name] !in Headers(columns)
    requires forall k :: 0 <= k < |columns| ==> !MatchesCandidate(columns[k].1, [Normalize(hints[name])])
    requires FirstWord(Normalize(hints[name])).Some?
    requires p < |columns| && |columns[p].0| != 0
    requires StartsWith(columns[p].1, FirstWord(Normalize(hints[name])).value)
    requires forall k :: 0 <= k < p ==> !StartsWith(columns[k].1, FirstWord(Normalize(hints[name])).value)
    ensures HintFor(name, columns, hints) == Ok(Some(columns[p].0))
  {
    var key := Normalize(hints[name]);
    NormalizeIdempotent(hints[name]);
    NormalizeShape(hints[name]);
    NormalizedFirstWord(key);
    NormalizedFirstWordIsNormal(key);
    FirstCandidateIndexIsFirst(columns, [key], |columns|);
    var w := FirstWord(key).value;
  }

  /**
   * A hint that is not a header and whose normalised form neither equals any column's nor is
   * a prefix-word of any column's leaves its metric's entry unset.
   */
  lemma UnmatchedHintGivesNone(columns: seq<string>, hints: map<string, string>, c: Canonical)
    requires Name(c) in hints && hints[Name(c)] !in columns && |Normalize(hints[Name(c)])| != 0
    requires forall k :: 0 <= k < |columns| ==> !MatchesCandidate(Normalize(columns[k]), [Normalize(hints[Name(c)])])
    requires forall k :: 0 <= k < |columns| ==>
      FirstWord(Normalize(hints[Name(c)])).Some? ==> !StartsWith(Normalize(columns[k]), FirstWord(Normalize(hints[Name(c)])).value)
    ensures HintedEntry(c, NormalizedColumns(columns), hints) == Ok(None)
  {
    HeadersOfNormalized(columns);
    var key := Normalize(hints[Name(c)]);
    NormalizeIdempotent(hints[Name(c)]);
    NormalizeShape(hints[Name(c)]);
    NormalizedFirstWordIsNormal(key);
    FirstCandidateIndexIsFirst(NormalizedColumns(columns), [key], |columns|);
  }

  /** Such a hint can be left out: the result equals resolving without it. */
  lemma UnmatchedHintIgnored(columns: seq<string>, hints: map<string, string>, c: Canonical)
    requires Name(c) in hints && hints[Name(c)] !in columns && |Normalize(hints[Name(c)])| != 0
    requires forall k :: 0 <= k < |columns| ==> !MatchesCandidate(Normalize(columns[k]), [Normalize(hints[Name(c)])])
    requires forall k :: 0 <= k < |columns| ==>
      FirstWord(Normalize(hints[Name(c)])).Some? ==> !StartsWith(Normalize(columns[k]), FirstWord(Normalize(hints[Name(c)])).value)
    ensures Identify(columns, hints) == Identify(columns, hints - {Name(c)})
  {
    UnmatchedHintGivesNone(columns, hints, c);
    NoneHintIgnored(columns, hints, c);
  }

  /** A hint whose lookup leaves its metric's entry None can be dropped without changing the result. */
  lemma NoneHintIgnored(columns: seq<string>, hints: map<string, string>, c: Canonical)
    requires Name(c) in hints && HintedEntry(c, NormalizedColumns(columns), hints) == Ok(None)
    ensures Identify(columns, hints) == Identify(columns, hints - {Name(c)})
  {
    var normalizedColumns := NormalizedColumns(columns);
    var others := hints - {Name(c)};
    forall d ensures HintedEntry(d, normalizedColumns, hints) == HintedEntry(d, normalizedColumns, others) {
      assert Name(d) == Name(c) ==> FromName(Name(c)) == Some(d);
    }
    assert HintFails(normalizedColumns, hints) == HintFails(normalizedColumns, others);
    if !HintFails(normalizedColumns, hints) {
      assert FinalEntries(normalizedColumns, hints) == FinalEntries(normalizedColumns, others);
    }
  }

  /**
   * Without a hint, the earliest column whose normal form equals a synonym or the canonical
   * name, directly or once spaces are removed, is the entry, whatever prefix matches exist.
   */
  lemma EarliestCandidateWins(columns: seq<string>, hints: map<string, string>, c: Canonical, j: nat)
    requires Name(c) !in hints
    requires j < |columns| && |columns[j]| != 0
    requires MatchesCandidate(Normalize(columns[j]), Candidates(c))
    requires forall k :: 0 <= k < j ==> !MatchesCandidate(Normalize(columns[k]), Candidates(c))
    ensures var r := Identify(columns, hints);
      r.Ok? ==> Resolve(r.value, c) == Some(columns[j])
  {
    EarliestCandidateEntry(columns, c, j);
    assert HintedEntry(c, NormalizedColumns(columns), hints) == Ok(None);
  }

  /** An unhinted metric's entry is the earliest column matching one of its candidates. */
  lemma EarliestCandidateEntry(columns: seq<string>, c: Canonical, j: nat)
    requires j < |columns| && |columns[j]| != 0
    requires MatchesCandidate(Normalize(columns[j]), Candidates(c))
    requires forall k :: 0 <= k < j ==> !MatchesCandidate(Normalize(columns[k]), Candidates(c))
    ensures AutoEntry(c, NormalizedColumns(columns), None) == Some(columns[j])
  {
    var normalizedColumns := NormalizedColumns(columns);
    NameIsOneWord(c);
    assert forall k :: 0 <= k < |columns| ==> normalizedColumns[k] == (columns[k], Normalize(columns[k]));
    FirstCandidateIndexIsFirst(normalizedColumns, Candidates(c), j);
  }

  /**
   * Without a hint and without a synonym match, the entry is the first column whose normal
   * form starts with the normalised canonical name.
   */
  lemma PrefixFallback(columns: seq<string>, hints: map<string, string>, c: Canonical, p: nat)
    requires Name(c) !in hints
    requires forall k :: 0 <= k < |columns| ==> !MatchesCandidate(Normalize(columns[k]), Candidates(c))
    requires forall k :: 0 <= k < |columns| ==> !MatchesCandidate(Normalize(columns[k]), NormalizeAll(Candidates(c)))
    requires p < |columns| && |columns[p]| != 0 && StartsWith(Normalize(columns[p]), Normalize(Name(c)))
    requires forall k :: 0 <= k < p ==> !StartsWith(Normalize(columns[k]), Normalize(Name(c)))
    ensures var r := Identify(columns, hints);
      r.Ok? ==> Resolve(r.value, c) == Some(columns[p])
  {
    PrefixAutoEntry(columns, c, p);
  }

  /** The prefix fallback for an entry the hint loop left unset. */
  lemma PrefixAutoEntry(columns: seq<string>, c: Canonical, p: nat)
    requires forall k :: 0 <= k < |columns| ==> !MatchesCandidate(Normalize(columns[k]), Candidates(c))
    requires forall k :: 0 <= k < |columns| ==> !MatchesCandidate(Normalize(columns[k]), NormalizeAll(Candidates(c)))
    requires p < |columns| && |columns[p]| != 0 && StartsWith(Normalize(columns[p]), Normalize(Name(c)))
    requires forall k :: 0 <= k < p ==> !StartsWith(Normalize(columns[k]), Normalize(Name(c)))
    ensures AutoEntry(c, NormalizedColumns(columns), None) == Some(columns[p])
  {
    var normalizedColumns := NormalizedColumns(columns);
    assert forall k :: 0 <= k < |columns| ==> normalizedColumns[k].1 == Normalize(columns[k]);
    NameIsOneWord(c);
    FirstCandidateIndexIsFirst(normalizedColumns, Candidates(c), |columns|);
    FirstCandidateIndexIsFirst(normalizedColumns, NormalizeAll(Candidates(c)), |columns|);
    FirstPrefixIndexIsFirst(normalizedColumns, Normalize(Name(c)), p);
    AutoForPrefix(Name(c), Synonyms(c), normalizedColumns, p);
  }

  /** The generic form of the prefix fallback, for an entry that is still empty. */
  lemma AutoForPrefix(name: string, synonyms: seq<string>, columns: seq<Column>, p: nat)
    requires FirstWord(name) == Some(name)
    requires FirstCandidateIndex(columns, synonyms + [name]) == |columns|
    requires FirstCandidateIndex(columns, NormalizeAll(synonyms + [name])) == |columns|
    requires p == FirstPrefixIndex(columns, Normalize(name)) && p < |columns| && |columns[p].0| != 0
    ensures AutoFor(name, synonyms, columns, None) == Some(columns[p].0)
  {
  }

  /** An index whose column starts with the prefix, with none before it, is the first such index. */
  lemma FirstPrefixIndexIsFirst(columns: seq<Column>, prefix: string, p: nat)
    requires p <= |columns|
    requires forall k :: 0 <= k < p ==> !StartsWith(columns[k].1, prefix)
    requires p < |columns| ==> StartsWith(columns[p].1, prefix)
    ensures p == FirstPrefixIndex(columns, prefix)
  {
  }

  /** Without a hint and with no match of any kind, the entry stays None, and nothing is raised for it. */
  lemma NoMatchLeavesNone(columns: seq<string>, hints: map<string, string>, c: Canonical)
    requires Name(c) !in hints
    requires forall k :: 0 <= k < |columns| ==> !MatchesCandidate(Normalize(columns[k]), Candidates(c))
    requires forall k :: 0 <= k < |columns| ==> !MatchesCandidate(Normalize(columns[k]), NormalizeAll(Candidates(c)))
    requires forall k :: 0 <= k < |columns| ==> !StartsWith(Normalize(columns[k]), Normalize(Name(c)))
    ensures HintedEntry(c, NormalizedColumns(columns), hints) == Ok(None)
    ensures var r := Identify(columns, hints);
      r.Ok? ==> Resolve(r.value, c) == None
  {
    NoMatchAutoEntry(columns, c);
  }

  /** With no match of any kind, automatic matching leaves an unset entry None. */
  lemma NoMatchAutoEntry(columns: seq<string>, c: Canonical)
    requires forall k :: 0 <= k < |columns| ==> !MatchesCandidate(Normalize(columns[k]), Candidates(c))
    requires forall k :: 0 <= k < |columns| ==> !MatchesCandidate(Normalize(columns[k]), NormalizeAll(Candidates(c)))
    requires forall k :: 0 <= k < |columns| ==> !StartsWith(Normalize(columns[k]), Normalize(Name(c)))
    ensures AutoEntry(c, NormalizedColumns(columns), None) == None
  {
    var normalizedColumns := NormalizedColumns(columns);
    assert forall k :: 0 <= k < |columns| ==> normalizedColumns[k].1 == Normalize(columns[k]);
    NameIsOneWord(c);
    FirstCandidateIndexIsFirst(normalizedColumns, Candidates(c), |columns|);
    FirstCandidateIndexIsFirst(normalizedColumns, NormalizeAll(Candidates(c)), |columns|);
    assert FirstPrefixIndex(normalizedColumns, Normalize(Name(c))) == |columns|;
    NoMatchAutoFor(Name(c), Synonyms(c), normalizedColumns);
  }

  /** With no candidate, normalised candidate or name prefix matching, an empty entry stays empty. */
  lemma NoMatchAutoFor(name: string, synonyms: seq<string>, columns: seq<Column>)
    requires FirstWord(name) == Some(name)
    requires FirstCandidateIndex(columns, synonyms + [name]) == |columns|
    requires FirstCandidateIndex(columns, NormalizeAll(synonyms + [name])) == |columns|
    requires FirstPrefixIndex(columns, Normalize(name)) == |columns|
    ensures AutoFor(name, synonyms, columns, None) == None
  {
  }

  // ---------------------------------------------------------------------------
  // Normal forms of headers with a leading word
  // ---------------------------------------------------------------------------

  /** Every character is in `[a-z0-9]`. */
  predicate AllLowerAlnum(w: string) {
    forall i :: 0 <= i < |w| ==> IsLowerAlnum(w[i])
  }

  lemma {:induction false} ReplaceRunsKeepsWord(w: string, rest: string)
    requires AllLowerAlnum(w)
    ensures ReplaceRuns(w + rest) == w + ReplaceRuns(rest)
    decreases |w|
  {
    if |w| != 0 {
      assert (w + rest)[0] == w[0] && (w + rest)[1..] == w[1..] + rest;
      ReplaceRunsKeepsWord(w[1..], rest);
      assert w + ReplaceRuns(rest) == [w[0]] + (w[1..] + ReplaceRuns(rest));
    } else {
      assert w + rest == rest;
    }
  }

  lemma {:induction false} DropRunStopsAtWord(sep: string, rest: string)
    requires forall i :: 0 <= i < |sep| ==> !IsLowerAlnum(sep[i])
    requires |rest| == 0 || IsLowerAlnum(rest[0])
    ensures DropRun(sep + rest) == rest
    decreases |sep|
  {
    if |sep| != 0 {
      assert (sep + rest)[1..] == sep[1..] + rest;
      DropRunStopsAtWord(sep[1..], rest);
    } else {
      assert sep + rest == rest;
    }
  }

  lemma {:induction false} CollapseKeepsWord(w: string, rest: string)
    requires AllLowerAlnum(w)
    ensures CollapseSpaces(w + rest) == w + CollapseSpaces(rest)
    decreases |w|
  {
    if |w| != 0 {
      assert (w + rest)[0] == w[0] && (w + rest)[1..] == w[1..] + rest;
      CollapseKeepsWord(w[1..], rest);
      assert w + CollapseSpaces(rest) == [w[0]] + (w[1..] + CollapseSpaces(rest));
    } else {
      assert w + rest == rest;
    }
  }

  /** The substitution turns a word, a separator and a word character into the word, one space and the character. */
  lemma ReplaceRunsLeadingWord(word: string, sep: string, w: char, rest: string)
    requires AllLowerAlnum(word) && IsLowerAlnum(w)
    requires |sep| != 0 && forall i :: 0 <= i < |sep| ==> !IsLowerAlnum(sep[i])
    ensures ReplaceRuns(word + sep + [w] + rest) == word + (" " + ([w] + ReplaceRuns(rest)))
  {
    var tail := [w] + rest;
    assert word + sep + [w] + rest == word + (sep + tail);
    ReplaceRunsKeepsWord(word, sep + tail);
    DropRunStopsAtWord(sep[1..], tail);
    assert (sep + tail)[1..] == sep[1..] + tail;
    assert tail[0] == w && tail[1..] == rest;
  }

  /** Space collapsing keeps a word, a single space and a word character. */
  lemma CollapseLeadingWord(word: string, w: char, rest: string)
    requires AllLowerAlnum(word) && IsLowerAlnum(w)
    ensures CollapseSpaces(word + (" " + ([w] + rest))) == word + (" " + ([w] + CollapseSpaces(rest)))
  {
    CollapseKeepsWord(word, " " + ([w] + rest));
    assert (" " + ([w] + rest))[1..] == [w] + rest;
    assert DropSpaces([w] + rest) == [w] + rest;
    assert ([w] + rest)[1..] == rest;
  }

  /** Stripping keeps everything up to the last non-space character. */
  lemma StripKeepsLeadingWord(s: string, k: nat)
    requires k < |s| && !IsSpace(s[0]) && !IsSpace(s[k])
    ensures |Strip(s)| > k && Strip(s)[..k + 1] == s[..k + 1]
  {
    assert StripLeft(s) == s;
    StripRightFacts(s);
    var r := StripRight(s);
    assert |r| > k;
    assert r[..k + 1] == s[..k + 1];
  }

  /**
   * A lower-cased header that starts with a word, a separator and a word character
   * normalises to that word, one space and that character, followed by more.
   */
  lemma NormalizeLeadingWord(h: string, word: string, sep: string, w: char, rest: string)
    requires Trimmed(h) && Lower(h) == word + sep + [w] + rest
    requires |word| != 0 && AllLowerAlnum(word) && IsLowerAlnum(w)
    requires |sep| != 0 && forall i :: 0 <= i < |sep| ==> !IsLowerAlnum(sep[i])
    ensures |Normalize(h)| >= |word| + 2 && Normalize(h)[..|word| + 2] == word + " " + [w]
  {
    StripUnchanged(h);
    ReplaceRunsLeadingWord(word, sep, w, rest);
    var collapsed := word + (" " + ([w] + CollapseSpaces(ReplaceRuns(rest))));
    CollapseLeadingWord(word, w, ReplaceRuns(rest));
    assert Normalize(h) == Strip(collapsed);
    assert !IsSpace(collapsed[0]) && !IsSpace(collapsed[|word| + 1]) by {
      assert collapsed[0] == word[0] && collapsed[|word| + 1] == w;
      assert IsLowerAlnum(word[0]);
    }
    StripKeepsLeadingWord(collapsed, |word| + 1);
    assert collapsed[..|word| + 2] == word + " " + [w];
  }

  // ---------------------------------------------------------------------------
  // The headers of the sample dataset
  // ---------------------------------------------------------------------------

  /** The status column of the sample dataset, whose header carries the allowed values. */
  const STATUS_HEADER := "Status (pause/fix/test/keep)"

  /** A normal form starting with `status`, a space and a word character is not `status`, even without spaces. */
  lemma NotStatusCandidate(n: string, w: char)
    requires |n| >= 8 && n[..8] == "status " + [w] && w != ' '
    ensures !MatchesCandidate(n, ["status", "status"])
  {
    var compact := RemoveSpaces(n);
    assert n == "status " + ([w] + n[8..]);
    RemoveCharAppend("status ", [w] + n[8..], ' ');
    RemoveCharAppend([w], n[8..], ' ');
    assert RemoveSpaces("status ") == "status";
    assert RemoveSpaces([w]) == [w];
    assert |compact| >= 7;
    RemoveCharFacts("status", ' ');
    forall x | x in ["status", "status"] ensures RemoveSpaces(x) != compact {
      assert x == "status";
    }
  }

  /** The status metric is matched against `status` only, in both raw and normalised form. */
  lemma StatusVocabulary()
    ensures Candidates(Status) == ["status", "status"]
    ensures NormalizeAll(Candidates(Status)) == ["status", "status"]
    ensures Normalize(Name(Status)) == "status"
  {
    assert IsNormalized("status");
    NormalizeFixesNormalized("status");
  }

  /**
   * A lone header that reads `status`, then a separator, then more words resolves the status
   * metric: no synonym names it, and the prefix fallback finds it.
   */
  lemma DecoratedStatusResolvesStatus(h: string, sep: string, w: char, rest: string)
    requires Trimmed(h) && Lower(h) == "status" + sep + [w] + rest && IsLowerAlnum(w)
    requires |sep| != 0 && forall i :: 0 <= i < |sep| ==> !IsLowerAlnum(sep[i])
    ensures Identify([h], map[]).Ok?
    ensures Resolve(Identify([h], map[]).value, Status) == Some(h)
  {
    NormalizeLeadingWord(h, "status", sep, w, rest);
    var n := Normalize(h);
    assert n[..8] == "status " + [w];
    StatusVocabulary();
    assert StartsWith(n, "status") by {
      assert n[..6] == n[..8][..6];
    }
    NotStatusCandidate(n, w);
    PrefixFallback([h], map[], Status, 0);
  }

  /** The sample status header is `status`, a separator and further words. */
  lemma StatusHeaderIsDecorated()
    ensures Trimmed(STATUS_HEADER)
    ensures Lower(STATUS_HEADER) == "status" + " (" + ['p'] + "ause/fix/test/keep)"
  {
  }

  /** The sample status header, alone, resolves the status metric. */
  lemma StatusHeaderResolvesStatus()
    ensures Identify([STATUS_HEADER], map[]).Ok?
    ensures Resolve(Identify([STATUS_HEADER], map[]).value, Status) == Some(STATUS_HEADER)
  {
    StatusHeaderIsDecorated();
    DecoratedStatusResolvesStatus(STATUS_HEADER, " (", 'p', "ause/fix/test/keep)");
  }

  /** The sample campaign header normalises to the first campaign-name synonym. */
  lemma CampaignHeaderNormalForm()
    ensures Normalize("Campaign name") == "campaign name"
  {
    var h := "Campaign name";
    var t := "campaign name";
    assert Trimmed(h);
    StripUnchanged(h);
    assert Lower(h) == t;
    assert IsNormalized(t);
    ReplaceRunsUnchanged(t);
    CollapseUnchanged(t);
    assert Trimmed(t);
    StripUnchanged(t);
  }

  /** A first header "Campaign name" is the campaign name column, as in the sample dataset. */
  lemma CampaignNameHeaderWins(columns: seq<string>, hints: map<string, string>)
    requires |columns| != 0 && columns[0] == "Campaign name" && "campaign_name" !in hints
    ensures var r := Identify(columns, hints);
      r.Ok? ==> Resolve(r.value, CampaignName) == Some("Campaign name")
  {
    CampaignHeaderNormalForm();
    assert MatchesCandidate(Normalize(columns[0]), Candidates(CampaignName)) by {
      assert Candidates(CampaignName)[0] == "campaign name";
    }
    EarliestCandidateWins(columns, hints, CampaignName, 0);
  }
}
