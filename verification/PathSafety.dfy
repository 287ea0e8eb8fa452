/** Names the receiver gives to what it stores, off Windows: fresh, and confined to the receive directory. */
module PathSafety {
  import opened Wrappers
  import opened Text
  import opened Manifests

  // ----- suffixed names -----

  /** The position of the last dot, if any. */
  function LastDot(name: string): (d: Option<nat>)
    ensures d.Some? ==> d.value < |name| && name[d.value] == '.'
  {
    if name == "" then None
    else if name[|name| - 1] == '.' then Some(|name| - 1)
    else LastDot(name[..|name| - 1])
  }

  /** Where the suffix goes: before a non-empty extension of a non-empty stem, else at the end. */
  function SuffixPosition(name: string): (p: nat)
    ensures p <= |name|
  {
    match LastDot(name)
    case Some(d) => if 0 < d && d + 1 < |name| then d else |name|
    case None => |name|
  }

  lemma {:induction false} LastDotExactly(name: string)
    ensures match LastDot(name)
            case Some(d) => d < |name| && name[d] == '.' && '.' !in name[d + 1..]
            case None => '.' !in name
  {
    if name != "" && name[|name| - 1] != '.' {
      var init := name[..|name| - 1];
      LastDotExactly(init);
      assert name == init + [name[|name| - 1]];
      if LastDot(name).Some? {
        var d := LastDot(name).value;
        assert name[d + 1..] == init[d + 1..] + [name[|name| - 1]];
      }
    }
  }

  lemma OneLastDot(name: string, p: nat, d: nat)
    requires p < |name| && d < |name| && name[p] == name[d] == '.'
    requires '.' !in name[p + 1..] && '.' !in name[d + 1..]
    ensures p == d
  {
  }

  /** The suffix goes before the last dot exactly if there is something before it and something after it. */
  lemma SuffixPositionExactly(name: string, p: nat)
    requires p < |name|
    ensures SuffixPosition(name) == p <==>
              0 < p < |name| - 1 && name[p] == '.' && '.' !in name[p + 1..]
  {
    LastDotExactly(name);
    if name[p] == '.' && '.' !in name[p + 1..] {
      OneLastDot(name, p, LastDot(name).value);
    }
  }

  function SuffixedName(name: string, index: nat): string {
    var p := SuffixPosition(name);
    name[..p] + " (" + Decimal(index) + ")" + name[p..]
  }

  /** The names tried for a request, in order: the request itself, then ` (1)`, ` (2)`, ... */
  function Candidate(requested: string, index: nat): string {
    if index == 0 then requested else SuffixedName(requested, index)
  }

  lemma SuffixedLength(name: string, index: nat)
    ensures |SuffixedName(name, index)| == |name| + |Decimal(index)| + 3
  {
  }

  /** The numeral inside a suffixed name. */
  lemma NumeralOf(name: string, index: nat)
    ensures var p, n := SuffixPosition(name), |Decimal(index)|;
            |SuffixedName(name, index)| == |name| + n + 3
              && SuffixedName(name, index)[p + 2..p + 2 + n] == Decimal(index)
  {
    hide SuffixPosition, Decimal;
    var p, d := SuffixPosition(name), Decimal(index);
    var front := name[..p] + " (";
    assert SuffixedName(name, index) == front + d + (")" + name[p..]);
    assert |front| == p + 2;
  }

  /** A name whose last dot has something before and after it keeps what follows the dot as its extension. */
  lemma SuffixedForm(stem: string, extension: string, index: nat)
    requires stem != "" && extension != "" && '.' !in extension
    ensures SuffixedName(stem + "." + extension, index) == stem + " (" + Decimal(index) + ")." + extension
  {
    var name := stem + "." + extension;
    assert name[|stem|] == '.' && name[|stem| + 1..] == extension;
    SuffixPositionExactly(name, |stem|);
    hide Decimal, SuffixPosition;
    assert name[..|stem|] == stem && name[|stem|..] == "." + extension;
  }

  /** Any other name gets the suffix at its end. */
  lemma SuffixedWithoutExtension(name: string, index: nat)
    requires forall p: nat | 0 < p < |name| - 1 && name[p] == '.' :: '.' in name[p + 1..]
    ensures SuffixedName(name, index) == name + " (" + Decimal(index) + ")"
  {
    var p := SuffixPosition(name);
    if p < |name| {
      SuffixPositionExactly(name, p);
    }
    hide Decimal, SuffixPosition;
    assert name[..p] == name && name[p..] == "";
  }

  lemma SuffixedInjective(name: string, a: nat, b: nat)
    requires SuffixedName(name, a) == SuffixedName(name, b)
    ensures a == b
  {
    hide SuffixedName, SuffixPosition, Decimal;
    NumeralOf(name, a);
    NumeralOf(name, b);
    DecimalInjective(a, b);
  }

  /** No two candidates are the same name. */
  lemma CandidatesDistinct(requested: string, a: nat, b: nat)
    requires a != b
    ensures Candidate(requested, a) != Candidate(requested, b)
  {
    if a == 0 {
      SuffixedLength(requested, b);
    } else if b == 0 {
      SuffixedLength(requested, a);
    } else if SuffixedName(requested, a) == SuffixedName(requested, b) {
      SuffixedInjective(requested, a, b);
    }
  }

  lemma CandidateIsPlain(requested: string, index: nat)
    requires PlainName(requested)
    ensures PlainName(Candidate(requested, index))
  {
    if index > 0 {
      var p := SuffixPosition(requested);
      SuffixedLength(requested, index);
      assert Slashless(requested[..p]) && Slashless(requested[p..]);
    }
  }

  /** `unique_target_name`: the first candidate that neither exists nor is reserved, found after at most one
      more try than there are taken names. `None` stands for the exhausted u32 suffix space. */
  method UniqueTargetName(existing: set<string>, requested: string, reserved: set<string>)
    returns (name: Option<string>, reserved': set<string>, index: nat)
    ensures index <= |existing + reserved|
    ensures name.Some? ==>
              && name.value == Candidate(requested, index)
              && name.value !in existing && name.value !in reserved && reserved' == reserved + {name.value}
              && forall k: nat | k < index :: Candidate(requested, k) in existing + reserved
    ensures name.None? ==> |existing + reserved| > U32_MAX && reserved' == reserved
  {
    hide Candidate;
    index := 0;
    ghost var tried: set<string> := {};
    while index <= U32_MAX
      invariant |tried| == index && tried <= existing + reserved
      invariant forall c :: c in tried <==> exists k: nat | k < index :: Candidate(requested, k) == c
      decreases U32_MAX + 1 - index
    {
      SubsetSize(tried, existing + reserved);
      var candidate := Candidate(requested, index);
      if candidate !in existing && candidate !in reserved {
        return Some(candidate), reserved + {candidate}, index;
      }
      if candidate in tried {
        var k: nat :| k < index && Candidate(requested, k) == candidate;
        CandidatesDistinct(requested, k, index);
      }
      tried := tried + {candidate};
      index := index + 1;
    }
    SubsetSize(tried, existing + reserved);
    return None, reserved, index;
  }

  // ----- final paths -----

  function SanitizeSegment(segment: string): string {
    if segment == "." || segment == ".." then "_" else segment
  }

  function SanitizeAll(segments: seq<string>): (r: seq<string>)
    ensures |r| == |segments|
    ensures forall i | 0 <= i < |r| :: r[i] == SanitizeSegment(segments[i])
  {
    if segments == [] then [] else [SanitizeSegment(segments[0])] + SanitizeAll(segments[1..])
  }

  function Root(e: Entry): string {
    Split(e.relativePath)[0]
  }

  /** A name chosen for a root is its first candidate that nothing stands in the way of. */
  ghost predicate FirstFree(existing: set<string>, roots: map<string, string>, source: string, index: nat) {
    && source in roots && roots[source] == Candidate(SanitizeSegment(source), index)
    && forall k: nat | k < index :: Candidate(SanitizeSegment(source), k) in existing + roots.Values
  }

  /** A path below the receive directory, as its components. */
  type Components = seq<string>

  function TargetPath(root: string, e: Entry): Components {
    [root] + SanitizeAll(Split(e.relativePath)[1..])
  }

  ghost predicate Injective(m: map<string, string>) {
    forall a, b | a in m && b in m && a != b :: m[a] != m[b]
  }

  /** The roots chosen so far: different, new, each the first free candidate, and exactly the reserved names. */
  ghost predicate RootsOk(existing: set<string>, roots: map<string, string>, reserved: set<string>) {
    && Injective(roots) && reserved == roots.Values
    && (forall source | source in roots :: roots[source] !in existing)
    && (forall source | source in roots :: exists k: nat :: FirstFree(existing, roots, source, k))
  }

  /** The target name of a source root: the one it has, or a new one. */
  method ChooseRoot(existing: set<string>, roots: map<string, string>, reserved: set<string>, source: string)
    returns (name: Option<string>, roots': map<string, string>, reserved': set<string>)
    requires RootsOk(existing, roots, reserved)
    ensures RootsOk(existing, roots', reserved') && |reserved'| <= |reserved| + 1
    ensures name.None? ==> |existing + reserved| > U32_MAX && roots' == roots && reserved' == reserved
    ensures name.Some? ==> source in roots' && roots'[source] == name.value
    ensures forall s | s in roots :: s in roots' && roots'[s] == roots[s]
    ensures forall s | s in roots' :: s in roots || s == source
  {
    hide SanitizeSegment, Candidate, FirstFree, RootsOk;
    if source in roots {
      return Some(roots[source]), roots, reserved;
    }
    var chosen, taken, index := UniqueTargetName(existing, SanitizeSegment(source), reserved);
    if chosen.None? {
      return None, roots, reserved;
    }
    OneMoreRoot(existing, roots, reserved, source, index);
    return chosen, roots[source := chosen.value], taken;
  }

  lemma TargetOf(root: string, e: Entry)
    ensures TargetPath(root, e) == [root] + SanitizeAll(Split(e.relativePath))[1..]
  {
  }

  lemma NoRootsYet(existing: set<string>)
    ensures RootsOk(existing, map[], {})
  {
  }

  /** The first entries have their paths, and no root was chosen for any other. */
  ghost predicate PlacedUpTo(roots: map<string, string>, paths: map<string, Components>, entries: seq<Entry>, n: nat)
    requires n <= |entries|
  {
    && (forall source | source in roots :: exists j :: 0 <= j < n && Root(entries[j]) == source)
    && forall j | 0 <= j < n ::
         && Root(entries[j]) in roots && entries[j].itemId in paths
         && paths[entries[j].itemId] == TargetPath(roots[Root(entries[j])], entries[j])
  }

  lemma NothingPlaced(entries: seq<Entry>)
    ensures PlacedUpTo(map[], map[], entries, 0)
  {
  }

  lemma PlacedNext(roots: map<string, string>, roots': map<string, string>, paths: map<string, Components>,
                   entries: seq<Entry>, n: nat)
    requires n < |entries| && DistinctIds(entries) && PlacedUpTo(roots, paths, entries, n)
    requires Root(entries[n]) in roots' && (forall s | s in roots :: s in roots' && roots'[s] == roots[s])
    requires forall s | s in roots' :: s in roots || s == Root(entries[n])
    ensures var path := TargetPath(roots'[Root(entries[n])], entries[n]);
            PlacedUpTo(roots', paths[entries[n].itemId := path], entries, n + 1)
  {
    hide Root, TargetPath;
    forall source | source in roots'
      ensures exists j :: 0 <= j < n + 1 && Root(entries[j]) == source
    {
      if source == Root(entries[n]) {
        assert Root(entries[n]) == source;
      } else {
        var j :| 0 <= j < n && Root(entries[j]) == source;
      }
    }
    assert forall j | 0 <= j < n :: entries[j].itemId != entries[n].itemId;
  }

  lemma AllPlaced(roots: map<string, string>, paths: map<string, Components>, sorted: seq<Entry>, entries: seq<Entry>)
    requires PlacedUpTo(roots, paths, sorted, |sorted|) && multiset(sorted) == multiset(entries)
    ensures forall e | e in entries ::
              Root(e) in roots && e.itemId in paths && paths[e.itemId] == TargetPath(roots[Root(e)], e)
    ensures forall source | source in roots :: exists e :: e in entries && Root(e) == source
  {
    hide Root, TargetPath;
    SamePermutation(sorted, entries);
    forall e | e in entries
      ensures Root(e) in roots && e.itemId in paths && paths[e.itemId] == TargetPath(roots[Root(e)], e)
    {
      assert e in sorted;
      var j :| 0 <= j < |sorted| && sorted[j] == e;
    }
    forall source | source in roots
      ensures exists e :: e in entries && Root(e) == source
    {
      var j :| 0 <= j < |sorted| && Root(sorted[j]) == source;
      assert sorted[j] in entries;
    }
  }

  /** `allocate_final_paths`: entries in path order, one fresh root per source root. */
  method AllocateFinalPaths(existing: set<string>, entries: seq<Entry>)
    returns (r: Option<map<string, Components>>, roots: map<string, string>)
    requires DistinctIds(entries)
    ensures r.None? ==> |existing| + |entries| > U32_MAX
    ensures Injective(roots)
    ensures forall source | source in roots ::
              roots[source] !in existing && exists k: nat :: roots[source] == Candidate(SanitizeSegment(source), k)
    ensures forall source | source in roots :: exists k: nat :: FirstFree(existing, roots, source, k)
    ensures r.Some? ==> forall e | e in entries ::
              Root(e) in roots && e.itemId in r.value && r.value[e.itemId] == TargetPath(roots[Root(e)], e)
    ensures r.Some? ==> forall source | source in roots :: exists e :: e in entries && Root(e) == source
  {
    hide SortBy, SortedBy, SanitizeSegment, Candidate, FirstFree, RootsOk, SanitizeAll, TargetPath, PlacedUpTo, Split,
         Injective;
    NoRootsYet(existing);
    roots := map[];
    var reserved: set<string> := {};
    var result: map<string, Components> := map[];
    var sorted := SortBy((e: Entry) => e.relativePath, entries);
    SortByMeaning((e: Entry) => e.relativePath, entries);
    SamePermutedIds(entries, sorted);
    SameSize(entries, sorted);
    NothingPlaced(sorted);
    var i := 0;
    while i < |sorted|
      invariant i <= |sorted| && RootsOk(existing, roots, reserved) && |reserved| <= i
      invariant PlacedUpTo(roots, result, sorted, i)
    {
      var entry := sorted[i];
      var segments := SanitizeAll(Split(entry.relativePath));
      ghost var before := roots;
      var name;
      name, roots, reserved := ChooseRoot(existing, roots, reserved, Split(entry.relativePath)[0]);
      if name.None? {
        UnionSize(existing, reserved);
        RootsMeaning(existing, roots, reserved);
        return None, roots;
      }
      TargetOf(name.value, entry);
      PlacedNext(before, roots, result, sorted, i);
      result := result[entry.itemId := [name.value] + segments[1..]];
      i := i + 1;
    }
    RootsMeaning(existing, roots, reserved);
    AllPlaced(roots, result, sorted, entries);
    return Some(result), roots;
  }

  lemma RootsMeaning(existing: set<string>, roots: map<string, string>, reserved: set<string>)
    requires RootsOk(existing, roots, reserved)
    ensures Injective(roots)
    ensures forall source | source in roots ::
              roots[source] !in existing && exists k: nat :: roots[source] == Candidate(SanitizeSegment(source), k)
    ensures forall source | source in roots :: exists k: nat :: FirstFree(existing, roots, source, k)
  {
    AllCandidates(existing, roots);
  }

  lemma AllCandidates(existing: set<string>, roots: map<string, string>)
    requires forall source | source in roots :: exists k: nat :: FirstFree(existing, roots, source, k)
    ensures forall source | source in roots :: exists k: nat :: roots[source] == Candidate(SanitizeSegment(source), k)
  {
    hide Candidate, SanitizeSegment;
    forall source | source in roots
      ensures exists k: nat :: roots[source] == Candidate(SanitizeSegment(source), k)
    {
      var k: nat :| FirstFree(existing, roots, source, k);
    }
  }

  /** Choosing one more free name leaves the roots in order, and the earlier names first. */
  lemma OneMoreRoot(existing: set<string>, roots: map<string, string>, reserved: set<string>, source: string,
                    index: nat)
    requires RootsOk(existing, roots, reserved) && source !in roots
    requires Candidate(SanitizeSegment(source), index) !in existing + reserved
    requires forall k: nat | k < index :: Candidate(SanitizeSegment(source), k) in existing + reserved
    ensures var name := Candidate(SanitizeSegment(source), index);
            RootsOk(existing, roots[source := name], reserved + {name})
  {
    hide Candidate, SanitizeSegment;
    var name := Candidate(SanitizeSegment(source), index);
    var roots' := roots[source := name];
    ValuesGrow(roots, source, name);
    assert FirstFree(existing, roots', source, index);
    forall s | s in roots'
      ensures exists k: nat :: FirstFree(existing, roots', s, k)
    {
      if s != source {
        var k: nat :| FirstFree(existing, roots, s, k);
        assert roots'[s] == roots[s];
        assert FirstFree(existing, roots', s, k);
      }
    }
  }

  lemma ValuesGrow(roots: map<string, string>, source: string, name: string)
    requires source !in roots
    ensures roots[source := name].Values == roots.Values + {name}
  {
    var roots' := roots[source := name];
    forall v | v in roots.Values + {name}
      ensures v in roots'.Values
    {
      if v in roots.Values {
        var s :| s in roots && roots[s] == v;
        assert roots'[s] == v;
      } else {
        assert roots'[source] == v;
      }
    }
  }

  lemma UnionSize(a: set<string>, b: set<string>)
    ensures |a + b| <= |a| + |b|
  {
    assert a + b == a + (b - a);
    SubsetSize(b - a, b);
  }

  lemma SameSize(a: seq<Entry>, b: seq<Entry>)
    requires multiset(a) == multiset(b)
    ensures |a| == |b|
  {
    assert |multiset(a)| == |a| && |multiset(b)| == |b|;
  }

  /** A permutation of entries with distinct ids has distinct ids. */
  lemma SamePermutedIds(a: seq<Entry>, b: seq<Entry>)
    requires multiset(a) == multiset(b) && DistinctIds(a)
    ensures DistinctIds(b)
  {
    forall i, j | 0 <= i < j < |b|
      ensures b[i].itemId != b[j].itemId
    {
      if b[i].itemId == b[j].itemId {
        assert b[i] in multiset(a) && b[j] in multiset(a);
        var k :| 0 <= k < |a| && a[k] == b[i];
        var l :| 0 <= l < |a| && a[l] == b[j];
        assert a[k].itemId == a[l].itemId;
        if k == l {
          TwiceInMultiset(b, i, j);
          OnceInMultiset(a, k);
        }
      }
    }
  }

  lemma TwiceInMultiset(s: seq<Entry>, i: nat, j: nat)
    requires i < j < |s| && s[i] == s[j]
    ensures multiset(s)[s[i]] >= 2
  {
    assert s == s[..j] + [s[j]] + s[j + 1..];
    assert s[i] in s[..j];
    assert s[i] in multiset(s[..j]);
  }

  lemma OnceInMultiset(s: seq<Entry>, k: nat)
    requires k < |s| && DistinctIds(s)
    ensures multiset(s)[s[k]] == 1
  {
    assert s == s[..k] + [s[k]] + s[k + 1..];
    assert s[k] !in s[..k] && s[k] !in s[k + 1..];
    assert s[k] !in multiset(s[..k]) && s[k] !in multiset(s[k + 1..]);
  }

  /** The path of an entry under a root chosen for its source root. */
  ghost predicate Allocated(roots: map<string, string>, e: Entry, path: Components) {
    Root(e) in roots && path == TargetPath(roots[Root(e)], e)
  }

  /** Whether the manifest was validated or not, no component of a final path leads up or nowhere. */
  lemma FinalPathsHaveNoDots(e: Entry, roots: map<string, string>, path: Components, k: nat)
    requires Allocated(roots, e, path) && roots[Root(e)] == Candidate(SanitizeSegment(Root(e)), k)
    ensures forall name | name in path :: name != "." && name != ".."
  {
    hide Split, SuffixPosition, Decimal;
    if k > 0 {
      SuffixedLength(SanitizeSegment(Root(e)), k);
    }
  }

  /** On a validated manifest two entries with one final path are the same entry. */
  lemma FinalPathsInjective(entries: seq<Entry>, roots: map<string, string>, i: nat, j: nat)
    requires ValidManifest(entries) && Injective(roots)
    requires i < |entries| && j < |entries| && Root(entries[i]) in roots && Root(entries[j]) in roots
    requires TargetPath(roots[Root(entries[i])], entries[i]) == TargetPath(roots[Root(entries[j])], entries[j])
    ensures i == j
  {
    var a, b := Split(entries[i].relativePath), Split(entries[j].relativePath);
    var path := TargetPath(roots[Root(entries[i])], entries[i]);
    assert EntryValid(entries[i]) && EntryValid(entries[j]);
    AcceptedPathIsConfined(entries[i].relativePath);
    AcceptedPathIsConfined(entries[j].relativePath);
    assert path[0] == roots[a[0]] && path[0] == roots[b[0]];
    SanitizeKeeps(a[1..]);
    SanitizeKeeps(b[1..]);
    assert path[1..] == a[1..] && path[1..] == b[1..];
    assert a == [a[0]] + a[1..] && b == [b[0]] + b[1..];
    JoinSplit(entries[i].relativePath);
    JoinSplit(entries[j].relativePath);
  }

  lemma SanitizeKeeps(segments: seq<string>)
    requires forall s | s in segments :: PlainName(s)
    ensures SanitizeAll(segments) == segments
  {
    forall i | 0 <= i < |segments|
      ensures SanitizeAll(segments)[i] == segments[i]
    {
      assert PlainName(segments[i]);
    }
  }

  /** On a validated manifest every final path is a non-empty list of plain names. */
  lemma FinalPathsConfined(e: Entry, roots: map<string, string>, path: Components, k: nat)
    requires EntryValid(e) && Allocated(roots, e, path)
    requires roots[Root(e)] == Candidate(SanitizeSegment(Root(e)), k)
    ensures |path| >= 1 && forall c | c in path :: PlainName(c)
  {
    var segments := Split(e.relativePath);
    AcceptedPathIsConfined(e.relativePath);
    assert segments[0] in segments;
    CandidateIsPlain(segments[0], k);
    SanitizeKeeps(segments[1..]);
  }

  /** Under its new root an entry keeps its own path: put the root's own name back, and it is the manifest's. */
  lemma FinalPathsKeepOrder(e: Entry, root: string)
    requires EntryValid(e)
    ensures Join([Root(e)] + TargetPath(root, e)[1..]) == e.relativePath
  {
    var segments := Split(e.relativePath);
    AcceptedPathIsConfined(e.relativePath);
    SanitizeKeeps(segments[1..]);
    assert TargetPath(root, e)[1..] == segments[1..];
    assert [segments[0]] + segments[1..] == segments;
    JoinSplit(e.relativePath);
  }

  /** Where the entries of a validated manifest end up: each at a path of its own, under a first name that was not there
      before, made of plain names only, so below the receive directory; below that first name it keeps its own path, and
      entries share the first name exactly if they share their root. */
  method PlaceManifest(existing: set<string>, entries: seq<Entry>) returns (r: Option<map<string, Components>>)
    requires ValidManifest(entries) && DistinctIds(entries)
    ensures r.None? ==> |existing| + |entries| > U32_MAX
    ensures r.Some? ==> forall e | e in entries ::
              && e.itemId in r.value && |r.value[e.itemId]| >= 1 && r.value[e.itemId][0] !in existing
              && forall name | name in r.value[e.itemId] :: PlainName(name)
    ensures r.Some? ==> forall e | e in entries :: Join([Root(e)] + r.value[e.itemId][1..]) == e.relativePath
    ensures r.Some? ==> forall a, b | a in entries && b in entries ::
              r.value[a.itemId][0] == r.value[b.itemId][0] <==> Root(a) == Root(b)
    ensures r.Some? ==> forall i, j | 0 <= i < j < |entries| ::
              r.value[entries[i].itemId] != r.value[entries[j].itemId]
  {
    hide Split, SanitizeSegment, Candidate, PlainName, ValidateRelativePath;
    var roots;
    r, roots := AllocateFinalPaths(existing, entries);
    if r.Some? {
      forall e | e in entries
        ensures |r.value[e.itemId]| >= 1 && r.value[e.itemId][0] !in existing
        ensures forall name | name in r.value[e.itemId] :: PlainName(name)
      {
        var k: nat :| roots[Root(e)] == Candidate(SanitizeSegment(Root(e)), k);
        assert EntryValid(e);
        FinalPathsConfined(e, roots, r.value[e.itemId], k);
      }
      forall i, j | 0 <= i < j < |entries|
        ensures r.value[entries[i].itemId] != r.value[entries[j].itemId]
      {
        assert entries[i] in entries && entries[j] in entries;
        if r.value[entries[i].itemId] == r.value[entries[j].itemId] {
          FinalPathsInjective(entries, roots, i, j);
        }
      }
      forall e | e in entries
        ensures Join([Root(e)] + r.value[e.itemId][1..]) == e.relativePath
      {
        assert EntryValid(e);
        FinalPathsKeepOrder(e, roots[Root(e)]);
      }
      assert forall e | e in entries :: r.value[e.itemId][0] == roots[Root(e)];
    }
  }
}
