/** How a session starts: the receiver reloads its recorded chunks and says what it has, the sender turns that
    into its job list. */
module Preparation {
  import opened Wrappers
  import opened Chunks
  import opened ResumeMaps
  import opened Storage
  import opened Jobs
  import opened Text
  import opened Manifests

  datatype PrepareError = BadPlan(error: ChunkError) | CounterOverflow

  datatype FileResume = FileResume(itemId: string, completedBitmap: Bytes)

  // ----- plans of a manifest -----

  function PlanOf(e: Entry): Result<ChunkPlan, ChunkError> {
    if e.kind == File then NewPlan(e.size, DEFAULT_CHUNK_SIZE) else Ok(ChunkPlan(0, DEFAULT_CHUNK_SIZE, 0))
  }

  ghost predicate Plannable(entries: seq<Entry>) {
    forall i | 0 <= i < |entries| :: entries[i].size <= U64_MAX && PlanOf(entries[i]).Ok?
  }

  ghost function PlansOf(entries: seq<Entry>): (plans: seq<ChunkPlan>)
    requires Plannable(entries)
    ensures |plans| == |entries| && ValidPlans(plans)
    ensures forall i | 0 <= i < |plans| :: Ok(plans[i]) == PlanOf(entries[i])
  {
    if entries == [] then []
    else
      PlanExists(entries[0].size, DEFAULT_CHUNK_SIZE);
      [PlanOf(entries[0]).value] + PlansOf(entries[1..])
  }

  /** The sizes of the files, directories left out. */
  ghost function FileSizes(entries: seq<Entry>, i: nat): nat
    requires i <= |entries|
    decreases |entries| - i
  {
    if i == |entries| then 0 else (if entries[i].kind == File then entries[i].size else 0) + FileSizes(entries, i + 1)
  }

  /** The plans cover the files as the manifest announces them, in chunks of 4 MiB. */
  lemma {:induction false} PlansCover(entries: seq<Entry>, i: nat)
    requires Plannable(entries) && i <= |entries|
    ensures TotalBytes(PlansOf(entries), i) == FileSizes(entries, i)
    ensures forall j | i <= j < |entries| :: PlansOf(entries)[j].chunkSize == 4 * 1024 * 1024
    decreases |entries| - i
  {
    hide PlansOf, DivCeil, ChunkPlan.Valid;
    if i < |entries| {
      PlansCover(entries, i + 1);
      assert Ok(PlansOf(entries)[i]) == PlanOf(entries[i]);
    }
  }

  // ----- the receiver -----

  class IncomingFile {
    const entry: Entry
    const plan: ChunkPlan
    const resume: ResumeMap
    const target: DiskFile

    constructor (entry: Entry, plan: ChunkPlan, resume: ResumeMap, target: DiskFile)
      ensures this.entry == entry && this.plan == plan && this.resume == resume && this.target == target
    {
      this.entry, this.plan, this.resume, this.target := entry, plan, resume, target;
    }

    ghost predicate Prepared(e: Entry, done: set<nat>)
      reads this, resume, resume.words, target
    {
      && entry == e && Ok(plan) == PlanOf(e) && plan.Valid()
      && resume.Valid() && resume.chunkCount == plan.chunkCount && resume.Contents() == done
      && |target.data| == e.size
    }
  }

  /** The recorded chunks of an entry that its plan knows. */
  ghost function Reloaded(e: Entry, recorded: map<string, seq<nat>>): set<nat> {
    if e.kind == File && PlanOf(e).Ok? && e.itemId in recorded
    then set k | k in recorded[e.itemId] && k < PlanOf(e).value.chunkCount
    else {}
  }

  ghost function ReloadedAll(entries: seq<Entry>, recorded: map<string, seq<nat>>): (done: seq<set<nat>>)
    ensures |done| == |entries|
    ensures forall i | 0 <= i < |done| :: done[i] == Reloaded(entries[i], recorded)
  {
    if entries == [] then [] else [Reloaded(entries[0], recorded)] + ReloadedAll(entries[1..], recorded)
  }

  method Reload(chunkCount: nat, rows: seq<nat>) returns (resume: ResumeMap)
    ensures fresh(resume) && fresh(resume.words) && resume.Valid() && resume.chunkCount == chunkCount
    ensures resume.Contents() == set k | k in rows && k < chunkCount
  {
    hide IndexSet, DivCeil;
    resume := new ResumeMap(chunkCount);
    var i := 0;
    while i < |rows|
      invariant i <= |rows| && fresh(resume) && fresh(resume.words)
      invariant resume.Valid() && resume.chunkCount == chunkCount
      invariant resume.Contents() == set k | k in rows[..i] && k < chunkCount
    {
      if rows[i] < chunkCount {
        var marked := resume.MarkComplete(rows[i]);
      }
      assert rows[..i + 1] == rows[..i] + [rows[i]];
      i := i + 1;
    }
    assert rows[..i] == rows;
  }

  /** One file entry of `prepare_incoming`: its part file, its resume map, and what it adds to the two sums. */
  method PrepareFile(e: Entry, recorded: map<string, seq<nat>>, parts: map<string, Bytes>)
    returns (r: Result<IncomingFile, ChunkError>, missing: nat, bytes: nat)
    requires e.kind == File && e.size <= U64_MAX
    ensures r.Ok? <==> PlanOf(e).Ok?
    ensures r.Ok? ==> fresh(r.value) && fresh(r.value.resume) && fresh(r.value.resume.words) && fresh(r.value.target)
    ensures r.Ok? ==> r.value.Prepared(e, Reloaded(e, recorded))
    ensures r.Ok? ==> r.value.target.data == Resized(if e.itemId in parts then parts[e.itemId] else [], e.size)
    ensures r.Ok? ==> missing == PlanOf(e).value.chunkCount - |Reloaded(e, recorded)|
    ensures r.Ok? ==> PlanOf(e).value.Valid() && bytes == BytesFrom(PlanOf(e).value, Reloaded(e, recorded), 0)
  {
    PlanExists(e.size, DEFAULT_CHUNK_SIZE);
    var healthy: bool := *;
    var target := new DiskFile(if e.itemId in parts then parts[e.itemId] else [], healthy);
    target.SetLen(e.size);
    var plan := PlanOf(e);
    if plan.Err? {
      return Err(plan.error), 0, 0;
    }
    var resume := Reload(plan.value.chunkCount, if e.itemId in recorded then recorded[e.itemId] else []);
    var file := new IncomingFile(e, plan.value, resume, target);
    var completedBytes := resume.CompletedBytes(plan.value);
    var completed := resume.CountBelow(plan.value.chunkCount);
    SubsetSize(resume.Contents(), Below(plan.value.chunkCount));
    return Ok(file), plan.value.chunkCount - completed, completedBytes.value;
  }

  /** What the counter of `prepare_incoming` still gains from the entries from `i` on. */
  ghost function MissingOf(entries: seq<Entry>, recorded: map<string, seq<nat>>, i: nat): int
    requires i <= |entries|
    decreases |entries| - i
  {
    if i == |entries| then 0
    else if PlanOf(entries[i]).Err? then MissingOf(entries, recorded, i + 1)
    else PlanOf(entries[i]).value.chunkCount - |Reloaded(entries[i], recorded)| + MissingOf(entries, recorded, i + 1)
  }

  /** What its byte sum still gains from the entries from `i` on. */
  ghost function ResumedOf(entries: seq<Entry>, recorded: map<string, seq<nat>>, i: nat): nat
    requires i <= |entries|
    decreases |entries| - i
  {
    if i == |entries| then 0
    else if PlanOf(entries[i]).Err? || !PlanOf(entries[i]).value.Valid() then ResumedOf(entries, recorded, i + 1)
    else BytesFrom(PlanOf(entries[i]).value, Reloaded(entries[i], recorded), 0) + ResumedOf(entries, recorded, i + 1)
  }

  lemma NothingMissing(entries: seq<Entry>, recorded: map<string, seq<nat>>, i: nat)
    requires i < |entries| && entries[i].kind == Directory
    ensures MissingOf(entries, recorded, i) == MissingOf(entries, recorded, i + 1)
    ensures ResumedOf(entries, recorded, i) == ResumedOf(entries, recorded, i + 1)
  {
  }

  /** One entry's share in the counter and in the byte sum. */
  lemma OneEntry(entries: seq<Entry>, recorded: map<string, seq<nat>>, i: nat, plan: ChunkPlan)
    requires i < |entries| && PlanOf(entries[i]) == Ok(plan) && plan.Valid()
    ensures MissingOf(entries, recorded, i)
            == plan.chunkCount - |Reloaded(entries[i], recorded)| + MissingOf(entries, recorded, i + 1)
    ensures ResumedOf(entries, recorded, i)
            == BytesFrom(plan, Reloaded(entries[i], recorded), 0) + ResumedOf(entries, recorded, i + 1)
  {
    hide PlanOf, NewPlan, DivCeil, Reloaded, ChunkPlan.Valid, ChunkPlan.At, BytesFrom;
  }

  lemma {:induction false} SumsOfPlans(entries: seq<Entry>, recorded: map<string, seq<nat>>, i: nat)
    requires Plannable(entries) && i <= |entries|
    ensures MissingOf(entries, recorded, i) == Remaining(PlansOf(entries), ReloadedAll(entries, recorded), i)
    ensures ResumedOf(entries, recorded, i) == DoneBytes(PlansOf(entries), ReloadedAll(entries, recorded), i)
    decreases |entries| - i
  {
    hide PlanOf, NewPlan, DivCeil, Reloaded, ChunkPlan.Valid, ChunkPlan.At, BytesFrom, PlansOf, ReloadedAll, MissingOf,
         ResumedOf, Remaining, DoneBytes;
    var plans, done := PlansOf(entries), ReloadedAll(entries, recorded);
    if i < |entries| {
      SumsOfPlans(entries, recorded, i + 1);
      OneEntry(entries, recorded, i, plans[i]);
      OnePlanMore(plans, done, i);
    } else {
      NoEntryLeft(entries, recorded);
      NoPlanLeft(plans, done);
    }
  }

  /** No entry takes from the counter. */
  lemma {:induction false} MissingOfIsNat(entries: seq<Entry>, recorded: map<string, seq<nat>>, i: nat)
    requires i <= |entries|
    ensures MissingOf(entries, recorded, i) >= 0
    decreases |entries| - i
  {
    hide NewPlan, DivCeil;
    if i < |entries| {
      MissingOfIsNat(entries, recorded, i + 1);
      if PlanOf(entries[i]).Ok? {
        ReloadedFits(entries[i], recorded);
      }
    }
  }

  lemma ReloadedFits(e: Entry, recorded: map<string, seq<nat>>)
    requires PlanOf(e).Ok?
    ensures |Reloaded(e, recorded)| <= PlanOf(e).value.chunkCount
  {
    hide NewPlan, DivCeil;
    SubsetSize(Reloaded(e, recorded), Below(PlanOf(e).value.chunkCount));
  }

  lemma NoEntryLeft(entries: seq<Entry>, recorded: map<string, seq<nat>>)
    ensures MissingOf(entries, recorded, |entries|) == 0 && ResumedOf(entries, recorded, |entries|) == 0
  {
  }

  /** The id is that of a file among the first `n` entries. */
  ghost predicate FromSomeEntry(entries: seq<Entry>, n: nat, id: string) {
    exists j | 0 <= j < n && j < |entries| :: entries[j].kind == File && entries[j].itemId == id
  }

  lemma PreparedIsValid(file: IncomingFile, e: Entry, done: set<nat>)
    requires file.Prepared(e, done)
    ensures file.resume.Valid()
  {
  }

  /** The context after the first `n` entries: every file among them is prepared, and it holds nothing else. */
  ghost predicate PreparedUpTo(entries: seq<Entry>, recorded: map<string, seq<nat>>, files: map<string, IncomingFile>,
                               n: nat)
    requires n <= |entries|
    reads files.Values, Footprint(files)
  {
    && (forall j | 0 <= j < n :: PlanOf(entries[j]).Ok?)
    && (forall j | 0 <= j < n && entries[j].kind == File ::
          entries[j].itemId in files && files[entries[j].itemId].Prepared(entries[j], Reloaded(entries[j], recorded)))
    && (forall id | id in files :: FromSomeEntry(entries, n, id) && files[id].resume.Valid())
  }

  /** What the files of a context consist of. */
  ghost function Footprint(files: map<string, IncomingFile>): set<object>
    reads files.Values
  {
    (set id | id in files :: files[id].target as object) + (set id | id in files :: files[id].resume as object)
    + (set id | id in files :: files[id].resume.words as object)
  }

  lemma DirectoryPrepared(entries: seq<Entry>, recorded: map<string, seq<nat>>, files: map<string, IncomingFile>,
                          n: nat)
    requires n < |entries| && entries[n].kind == Directory && PreparedUpTo(entries, recorded, files, n)
    ensures PreparedUpTo(entries, recorded, files, n + 1)
  {
    hide NewPlan, Reloaded, IncomingFile.Prepared, ResumeMap.Valid;
    forall id | id in files
      ensures FromSomeEntry(entries, n + 1, id)
    {
      OneEntryMore(entries, n, id);
    }
  }

  lemma OneEntryMore(entries: seq<Entry>, n: nat, id: string)
    requires FromSomeEntry(entries, n, id)
    ensures FromSomeEntry(entries, n + 1, id)
  {
  }

  lemma FilePrepared(entries: seq<Entry>, recorded: map<string, seq<nat>>, files: map<string, IncomingFile>, n: nat,
                     file: IncomingFile)
    requires n < |entries| && entries[n].kind == File && DistinctIds(entries)
              && PreparedUpTo(entries, recorded, files, n)
    requires file.Prepared(entries[n], Reloaded(entries[n], recorded)) && PlanOf(entries[n]).Ok?
    ensures PreparedUpTo(entries, recorded, files[entries[n].itemId := file], n + 1)
  {
    PreparedIsValid(file, entries[n], Reloaded(entries[n], recorded));
    hide PlanOf, Reloaded, IncomingFile.Prepared, ResumeMap.Valid, FromSomeEntry;
    var files' := files[entries[n].itemId := file];
    forall id | id in files'
      ensures FromSomeEntry(entries, n + 1, id)
    {
      if id == entries[n].itemId {
        LastEntry(entries, n);
      } else {
        OneEntryMore(entries, n, id);
      }
    }
    forall j | 0 <= j < n + 1 && entries[j].kind == File
      ensures entries[j].itemId in files'
                && files'[entries[j].itemId].Prepared(entries[j], Reloaded(entries[j], recorded))
    {
      assert j < n ==> entries[j].itemId != entries[n].itemId;
    }
  }

  lemma NothingPrepared(entries: seq<Entry>, recorded: map<string, seq<nat>>)
    ensures PreparedUpTo(entries, recorded, map[], 0)
  {
  }

  lemma AllPrepared(entries: seq<Entry>, recorded: map<string, seq<nat>>, files: map<string, IncomingFile>)
    requires PreparedUpTo(entries, recorded, files, |entries|)
    requires forall i | 0 <= i < |entries| :: entries[i].size <= U64_MAX
    ensures Plannable(entries)
    ensures forall j | 0 <= j < |entries| && entries[j].kind == File ::
              entries[j].itemId in files
                && files[entries[j].itemId].Prepared(entries[j], Reloaded(entries[j], recorded))
    ensures forall id | id in files :: FromSomeEntry(entries, |entries|, id) && files[id].resume.Valid()
  {
    hide PlanOf, Reloaded, IncomingFile.Prepared, ResumeMap.Valid, FromSomeEntry;
  }

  lemma LastEntry(entries: seq<Entry>, n: nat)
    requires n < |entries| && entries[n].kind == File
    ensures FromSomeEntry(entries, n + 1, entries[n].itemId)
  {
  }

  /** One more file in the context. */
  method PrepareNext(entries: seq<Entry>, recorded: map<string, seq<nat>>, parts: map<string, Bytes>,
                     files: map<string, IncomingFile>, n: nat)
    returns (r: Result<map<string, IncomingFile>, ChunkError>, missing: nat, bytes: nat)
    requires n < |entries| && entries[n].kind == File && entries[n].size <= U64_MAX && DistinctIds(entries)
    requires PreparedUpTo(entries, recorded, files, n)
    ensures r.Ok? <==> PlanOf(entries[n]).Ok?
    ensures r.Ok? ==> PreparedUpTo(entries, recorded, r.value, n + 1)
    ensures r.Ok? ==> MissingOf(entries, recorded, n) == missing + MissingOf(entries, recorded, n + 1)
    ensures r.Ok? ==> ResumedOf(entries, recorded, n) == bytes + ResumedOf(entries, recorded, n + 1)
  {
    hide PlanOf, NewPlan, DivCeil, Reloaded, ChunkPlan.Valid, Resized, IncomingFile.Prepared, MissingOf, ResumedOf,
         BytesFrom, FromSomeEntry;
    var prepared;
    prepared, missing, bytes := PrepareFile(entries[n], recorded, parts);
    if prepared.Err? {
      return Err(prepared.error), missing, bytes;
    }
    OneEntry(entries, recorded, n, PlanOf(entries[n]).value);
    FilePrepared(entries, recorded, files, n, prepared.value);
    return Ok(files[entries[n].itemId := prepared.value]), missing, bytes;
  }

  /** `prepare_incoming`: every file gets its reloaded resume map and a part file of the right size; the counter
      starts at the number of missing chunks and the resumed bytes are those of the reloaded chunks. */
  method PrepareIncoming(entries: seq<Entry>, recorded: map<string, seq<nat>>, parts: map<string, Bytes>)
    returns (r: Result<map<string, IncomingFile>, PrepareError>, remaining: nat, resumedBytes: nat)
    requires DistinctIds(entries) && forall i | 0 <= i < |entries| :: entries[i].size <= U64_MAX
    ensures r.Ok? ==> Plannable(entries)
    ensures r.Ok? ==> forall j | 0 <= j < |entries| && entries[j].kind == File ::
              entries[j].itemId in r.value
                && r.value[entries[j].itemId].Prepared(entries[j], Reloaded(entries[j], recorded))
    ensures r.Ok? ==> forall id | id in r.value :: FromSomeEntry(entries, |entries|, id) && r.value[id].resume.Valid()
    ensures r.Ok? <==> Plannable(entries) && Remaining(PlansOf(entries), ReloadedAll(entries, recorded), 0) <= U64_MAX
    ensures r.Ok? ==> remaining == Remaining(PlansOf(entries), ReloadedAll(entries, recorded), 0)
    ensures r.Ok? ==> resumedBytes == Min(DoneBytes(PlansOf(entries), ReloadedAll(entries, recorded), 0), U64_MAX)
    ensures r.Err? && r.error.BadPlan? ==> !Plannable(entries)
  {
    hide PlanOf, NewPlan, DivCeil, Reloaded, ChunkPlan.Valid, Resized, IncomingFile.Prepared, MissingOf, ResumedOf,
         PreparedUpTo, Footprint;
    NoEntryLeft(entries, recorded);
    NothingPrepared(entries, recorded);
    var files: map<string, IncomingFile> := map[];
    remaining, resumedBytes := 0, 0;
    ghost var exact: nat := 0;
    var i := 0;
    while i < |entries|
      invariant i <= |entries|
      invariant PreparedUpTo(entries, recorded, files, i)
      invariant remaining + MissingOf(entries, recorded, i) == MissingOf(entries, recorded, 0)
      invariant exact + ResumedOf(entries, recorded, i) == ResumedOf(entries, recorded, 0)
      invariant resumedBytes == Min(exact, U64_MAX) && remaining <= U64_MAX
    {
      var entry := entries[i];
      if entry.kind == Directory {
        NothingMissing(entries, recorded, i);
        DirectoryPrepared(entries, recorded, files, i);
        i := i + 1;
        continue;
      }
      var prepared, missing, bytes := PrepareNext(entries, recorded, parts, files, i);
      if prepared.Err? {
        assert PlanOf(entries[i]).Err?;
        return Err(BadPlan(prepared.error)), remaining, resumedBytes;
      }
      resumedBytes := SaturatingAdd(resumedBytes, bytes);
      exact := exact + bytes;
      if remaining + missing > U64_MAX {
        MissingOfIsNat(entries, recorded, i + 1);
        if Plannable(entries) {
          SumsOfPlans(entries, recorded, 0);
        }
        return Err(CounterOverflow), remaining, resumedBytes;
      }
      remaining := remaining + missing;
      files := prepared.value;
      i := i + 1;
    }
    AllPrepared(entries, recorded, files);
    SumsOfPlans(entries, recorded, 0);
    return Ok(files), remaining, resumedBytes;
  }

  method CollectResume(files: map<string, IncomingFile>) returns (listed: seq<FileResume>)
    requires forall id | id in files :: files[id].resume.Valid()
    ensures forall f | f in listed :: f.itemId in files && SpeaksFor(f, files[f.itemId].resume)
    ensures forall id | id in files :: exists f | f in listed :: f.itemId == id
    ensures |listed| == |files|
  {
    listed := [];
    var left := files.Keys;
    while left != {}
      invariant left <= files.Keys
      invariant forall f | f in listed :: f.itemId in files && SpeaksFor(f, files[f.itemId].resume)
      invariant forall id | id in files && id !in left :: exists f | f in listed :: f.itemId == id
      invariant |listed| + |left| == |files|
      decreases |left|
    {
      var id :| id in left;
      var bitmap := files[id].resume.ToBitmapBytes();
      ghost var before := listed;
      listed := listed + [FileResume(id, bitmap)];
      left := left - {id};
      assert FileResume(id, bitmap) in listed;
      assert forall f | f in before :: f in listed;
    }
  }

  ghost predicate OnePerItem(resume: seq<FileResume>) {
    forall i, j | 0 <= i < j < |resume| :: resume[i].itemId != resume[j].itemId
  }

  /** As many records as items, and every item among them, leaves no room for a second record of one. */
  lemma CoveredOnce(resume: seq<FileResume>, ids: set<string>)
    requires |resume| == |ids| && forall id | id in ids :: exists f | f in resume :: f.itemId == id
    ensures OnePerItem(resume)
  {
    forall i, j | 0 <= i < j < |resume|
      ensures resume[i].itemId != resume[j].itemId
    {
      if resume[i].itemId == resume[j].itemId {
        var fewer := resume[..j] + resume[j + 1..];
        forall id | id in ids
          ensures exists f | f in fewer :: f.itemId == id
        {
          var f :| f in resume && f.itemId == id;
          var k :| 0 <= k < |resume| && resume[k] == f;
          if k == j {
            assert fewer[i] == resume[i];
          } else {
            assert fewer[if k < j then k else k - 1] == f;
          }
        }
        Pigeonhole(fewer, ids);
      }
    }
  }

  lemma {:induction false} Pigeonhole(resume: seq<FileResume>, ids: set<string>)
    requires forall id | id in ids :: exists f | f in resume :: f.itemId == id
    ensures |ids| <= |resume|
  {
    if resume != [] {
      var rest, others := resume[1..], ids - {resume[0].itemId};
      forall id | id in others
        ensures exists f | f in rest :: f.itemId == id
      {
        var f :| f in resume && f.itemId == id;
        assert f in rest;
      }
      Pigeonhole(rest, others);
    }
  }

  /** `resume_envelope`: one bitmap per file, sorted by id. */
  method ResumeEnvelope(files: map<string, IncomingFile>) returns (resume: seq<FileResume>)
    requires forall id | id in files :: files[id].resume.Valid()
    ensures SortedBy((f: FileResume) => f.itemId, resume)
    ensures forall f | f in resume :: f.itemId in files && SpeaksFor(f, files[f.itemId].resume)
    ensures forall id | id in files :: exists f | f in resume :: f.itemId == id
    ensures |resume| == |files| && OnePerItem(resume)
  {
    hide SpeaksFor, OnePerItem;
    var listed := CollectResume(files);
    resume := SortBy((f: FileResume) => f.itemId, listed);
    SortByMeaning((f: FileResume) => f.itemId, listed);
    SamePermutation(listed, resume);
    assert |multiset(listed)| == |listed| && |multiset(resume)| == |resume|;
    CoveredOnce(resume, files.Keys);
  }

  ghost predicate SpeaksFor(f: FileResume, resume: ResumeMap)
    requires resume.Valid()
    reads resume, resume.words
  {
    && |f.completedBitmap| == DivCeil(resume.chunkCount, 8)
    && BitsOf(f.completedBitmap, resume.chunkCount) == resume.Contents()
  }

  // ----- the sender -----

  /** The bitmap a resume message declares for an item; a later record replaces an earlier one. */
  function Lookup(resume: seq<FileResume>, itemId: string): Option<Bytes>
    decreases |resume|
  {
    if resume == [] then None
    else if resume[|resume| - 1].itemId == itemId then Some(resume[|resume| - 1].completedBitmap)
    else Lookup(resume[..|resume| - 1], itemId)
  }

  /** What is looked up is the last record for the item. */
  lemma {:induction false} LookupIsLast(resume: seq<FileResume>, itemId: string)
    ensures match Lookup(resume, itemId)
            case None => forall f | f in resume :: f.itemId != itemId
            case Some(bitmap) => exists i | 0 <= i < |resume| ::
              resume[i] == FileResume(itemId, bitmap) && forall j | i < j < |resume| :: resume[j].itemId != itemId
    decreases |resume|
  {
    if resume != [] {
      var init, last := resume[..|resume| - 1], resume[|resume| - 1];
      if last.itemId == itemId {
        assert resume[|resume| - 1] == FileResume(itemId, last.completedBitmap);
      } else {
        LookupIsLast(init, itemId);
        assert resume == init + [last];
        if Lookup(init, itemId).Some? {
          var i :| 0 <= i < |init| && init[i] == FileResume(itemId, Lookup(init, itemId).value)
                   && forall j | i < j < |init| :: init[j].itemId != itemId;
          assert resume[i] == init[i];
        }
      }
    }
  }

  ghost predicate Decodable(e: Entry, resume: seq<FileResume>) {
    e.kind == File ==>
      PlanOf(e).Ok? &&
      match Lookup(resume, e.itemId)
      case Some(bitmap) => |bitmap| == DivCeil(PlanOf(e).value.chunkCount, 8)
      case None => true
  }

  /** The chunks a resume message declares complete for an entry. */
  ghost function Declared(e: Entry, resume: seq<FileResume>): set<nat>
    requires Decodable(e, resume)
  {
    if e.kind == File && Lookup(resume, e.itemId).Some?
    then BitsOf(Lookup(resume, e.itemId).value, PlanOf(e).value.chunkCount)
    else {}
  }

  ghost predicate AllDecodable(entries: seq<Entry>, resume: seq<FileResume>, n: nat)
    requires n <= |entries|
  {
    forall i | 0 <= i < n :: Decodable(entries[i], resume)
  }

  ghost function DeclaredAll(entries: seq<Entry>, resume: seq<FileResume>): (done: seq<set<nat>>)
    requires AllDecodable(entries, resume, |entries|)
    ensures |done| == |entries|
    ensures forall i | 0 <= i < |done| :: done[i] == Declared(entries[i], resume)
    decreases |entries|
  {
    if entries == [] then []
    else
      assert forall i | 0 <= i < |entries| - 1 :: entries[1..][i] == entries[i + 1];
      assert Decodable(entries[0], resume);
      [Declared(entries[0], resume)] + DeclaredAll(entries[1..], resume)
  }

  method MissingChunks(plan: ChunkPlan, resume: ResumeMap) returns (r: Result<seq<ChunkSpec>, ChunkError>)
    requires plan.Valid() && resume.Valid()
    ensures r == if resume.chunkCount != plan.chunkCount
                 then Err(ResumeMapMismatch(plan.chunkCount, resume.chunkCount))
                 else Ok(MissingFrom(plan, resume.Contents(), 0))
  {
    if resume.chunkCount != plan.chunkCount {
      return Err(ResumeMapMismatch(plan.chunkCount, resume.chunkCount));
    }
    hide ChunkPlan.At, ChunkPlan.Valid, DivCeil;
    var missing: seq<ChunkSpec> := [];
    var index := 0;
    while index < plan.chunkCount
      invariant index <= plan.chunkCount
      invariant missing + MissingFrom(plan, resume.Contents(), index) == MissingFrom(plan, resume.Contents(), 0)
    {
      if !resume.Contains(index) {
        ConcatAssociates(missing, [plan.At(index)], MissingFrom(plan, resume.Contents(), index + 1));
        missing := missing + [plan.At(index)];
      }
      index := index + 1;
    }
    assert missing + [] == missing;
    return Ok(missing);
  }

  /** The jobs of one file entry. */
  method FileJobs(e: Entry, entryIndex: nat, bitmap: Option<Bytes>) returns (r: Result<seq<ChunkJob>, ChunkError>)
    requires e.kind == File && e.size <= U64_MAX
    ensures r.Ok? <==> PlanOf(e).Ok? && (bitmap.Some? ==> |bitmap.value| == DivCeil(PlanOf(e).value.chunkCount, 8))
    ensures r.Ok? ==>
              PlanOf(e).value.Valid() &&
              r.value == Tag(entryIndex, MissingFrom(PlanOf(e).value,
                             if bitmap.Some? then BitsOf(bitmap.value, PlanOf(e).value.chunkCount) else {}, 0))
  {
    PlanExists(e.size, DEFAULT_CHUNK_SIZE);
    var plan := PlanOf(e);
    if plan.Err? {
      return Err(plan.error);
    }
    var resume: ResumeMap;
    match bitmap {
      case Some(bytes) =>
        var read := ResumeMap.FromBitmapBytes(plan.value.chunkCount, bytes);
        if read.Err? {
          return Err(read.error);
        }
        resume := read.value;
      case None =>
        resume := new ResumeMap(plan.value.chunkCount);
    }
    var missing := MissingChunks(plan.value, resume);
    return Ok(Tag(entryIndex, missing.value));
  }

  method CollectBitmaps(resume: seq<FileResume>) returns (maps: map<string, Bytes>)
    ensures forall id :: Lookup(resume, id) == if id in maps then Some(maps[id]) else None
  {
    maps := map[];
    var i := 0;
    while i < |resume|
      invariant i <= |resume|
      invariant forall id :: Lookup(resume[..i], id) == if id in maps then Some(maps[id]) else None
    {
      maps := maps[resume[i].itemId := resume[i].completedBitmap];
      assert resume[..i + 1][..i] == resume[..i];
      i := i + 1;
    }
    assert resume[..i] == resume;
  }

  /** One entry's jobs at the end of those before it. */
  lemma JobsNext(plans: seq<ChunkPlan>, done: seq<set<nat>>, i: nat, jobs: seq<ChunkJob>, more: seq<ChunkJob>)
    requires ValidPlans(plans) && |done| == |plans| && i < |plans|
    requires more == Tag(i, MissingFrom(plans[i], done[i], 0))
    ensures jobs + more + MissingJobs(plans, done, i + 1) == jobs + MissingJobs(plans, done, i)
  {
    hide ChunkPlan.Valid, ChunkPlan.At, MissingFrom, Tag;
    ConcatAssociates(jobs, more, MissingJobs(plans, done, i + 1));
  }

  lemma DirectoryHasNoJobs(plans: seq<ChunkPlan>, done: seq<set<nat>>, i: nat)
    requires ValidPlans(plans) && |done| == |plans| && i < |plans| && plans[i].chunkCount == 0
    ensures MissingJobs(plans, done, i + 1) == MissingJobs(plans, done, i)
  {
    hide ChunkPlan.Valid, ChunkPlan.At;
  }

  /** `build_chunk_jobs`: the missing chunks of every file, given what the resume message declares. */
  method BuildChunkJobs(entries: seq<Entry>, resume: seq<FileResume>) returns (r: Result<seq<ChunkJob>, ChunkError>)
    requires forall i | 0 <= i < |entries| :: entries[i].size <= U64_MAX
    ensures r.Ok? <==> AllDecodable(entries, resume, |entries|)
    ensures r.Ok? ==> Plannable(entries) && r.value == MissingJobs(PlansOf(entries), DeclaredAll(entries, resume), 0)
  {
    hide NewPlan, DivCeil, ChunkPlan.Valid, ChunkPlan.At, Lookup, MissingJobs, MissingFrom, Tag, BitsOf;
    var maps := CollectBitmaps(resume);
    var jobs: seq<ChunkJob> := [];
    ghost var all := AllDecodable(entries, resume, |entries|);
    assert all ==> Plannable(entries);
    ghost var plans := if all then PlansOf(entries) else [];
    ghost var done := if all then DeclaredAll(entries, resume) else [];
    var i := 0;
    while i < |entries|
      invariant i <= |entries| && AllDecodable(entries, resume, i)
      invariant all ==> jobs + MissingJobs(plans, done, i) == MissingJobs(plans, done, 0)
    {
      var entry := entries[i];
      if entry.kind == File {
        var more := FileJobs(entry, i, if entry.itemId in maps then Some(maps[entry.itemId]) else None);
        if more.Err? {
          assert !Decodable(entries[i], resume);
          return Err(more.error);
        }
        if all {
          assert Decodable(entries[i], resume) && done[i] == Declared(entry, resume) && Ok(plans[i]) == PlanOf(entry);
          JobsNext(plans, done, i, jobs, more.value);
        }
        jobs := jobs + more.value;
      } else if all {
        assert Ok(plans[i]) == PlanOf(entry);
        DirectoryHasNoJobs(plans, done, i);
      }
      i := i + 1;
    }
    if all {
      NoJobsLeft(plans, done);
    }
    assert jobs + [] == jobs;
    return Ok(jobs);
  }

  lemma NoJobsLeft(plans: seq<ChunkPlan>, done: seq<set<nat>>)
    requires ValidPlans(plans) && |done| == |plans|
    ensures MissingJobs(plans, done, |plans|) == []
  {
  }

  /** Cross-side agreement: the jobs the sender builds from the receiver's resume message are exactly the
      receiver's missing chunks, as many as its counter says, and together with its completed bytes they make up
      the job total. */
  method AgreeOnJobs(entries: seq<Entry>, ghost done: seq<set<nat>>, files: map<string, IncomingFile>)
    returns (jobs: Result<seq<ChunkJob>, ChunkError>)
    requires Plannable(entries) && |done| == |entries|
    requires forall j | 0 <= j < |entries| ::
               if entries[j].kind == File
               then entries[j].itemId in files && files[entries[j].itemId].Prepared(entries[j], done[j])
               else done[j] == {}
    requires forall id | id in files :: files[id].resume.Valid()
    ensures jobs.Ok? && Fits(PlansOf(entries), done)
    ensures jobs.value == MissingJobs(PlansOf(entries), done, 0)
    ensures |jobs.value| == Remaining(PlansOf(entries), done, 0)
    ensures JobBytes(jobs.value) + DoneBytes(PlansOf(entries), done, 0) == TotalBytes(PlansOf(entries), 0)
    ensures StrictlyOrdered(jobs.value)
    ensures forall job | job in jobs.value :: IsMissing(PlansOf(entries), done, job)
  {
    var resume := ResumeEnvelope(files);
    forall i | 0 <= i < |entries|
      ensures Decodable(entries[i], resume) && Declared(entries[i], resume) == done[i]
    {
      if entries[i].kind == File {
        LookupFinds(files, resume, entries[i].itemId);
      }
    }
    jobs := BuildChunkJobs(entries, resume);
    assert DeclaredAll(entries, resume) == done;
    JobSums(PlansOf(entries), done, 0);
    JobsExactly(PlansOf(entries), done, 0);
  }

  lemma {:induction false} LookupFinds(files: map<string, IncomingFile>, resume: seq<FileResume>, id: string)
    requires forall other | other in files :: files[other].resume.Valid()
    requires forall f | f in resume :: f.itemId in files && SpeaksFor(f, files[f.itemId].resume)
    requires id in files && exists f | f in resume :: f.itemId == id
    ensures Lookup(resume, id).Some? && SpeaksFor(FileResume(id, Lookup(resume, id).value), files[id].resume)
    decreases |resume|
  {
    var last := resume[|resume| - 1];
    assert last in resume;
    if last.itemId != id {
      var f :| f in resume && f.itemId == id;
      assert f in resume[..|resume| - 1];
      LookupFinds(files, resume[..|resume| - 1], id);
    }
  }

  /** Both sides of opening a session: the receiver prepares from what it recorded, the sender builds its jobs from the
      receiver's own resume message, and they agree: as many jobs as the receiver's counter says, exactly its missing
      chunks, in order and none twice, and job bytes and resumed bytes make up the whole. */
  method PrepareAndBuild(entries: seq<Entry>, recorded: map<string, seq<nat>>, parts: map<string, Bytes>)
    returns (r: Result<seq<ChunkJob>, PrepareError>, remaining: nat, resumedBytes: nat)
    requires DistinctIds(entries) && forall i | 0 <= i < |entries| :: entries[i].size <= U64_MAX
    ensures r.Ok? ==> Plannable(entries)
    ensures r.Ok? <==> Plannable(entries) && Remaining(PlansOf(entries), ReloadedAll(entries, recorded), 0) <= U64_MAX
    ensures r.Ok? ==> |r.value| == remaining
    ensures r.Ok? ==> forall job :: job in r.value <==> IsMissing(PlansOf(entries), ReloadedAll(entries, recorded), job)
    ensures r.Ok? ==> StrictlyOrdered(r.value)
    ensures r.Ok? && FileSizes(entries, 0) <= U64_MAX ==> JobBytes(r.value) + resumedBytes == FileSizes(entries, 0)
    ensures r.Err? && r.error.BadPlan? ==> !Plannable(entries)
  {
    hide NewPlan, DivCeil, Reloaded, ChunkPlan.Valid, ChunkPlan.At, IncomingFile.Prepared, MissingJobs, IsMissing,
         StrictlyOrdered, JobBytes, DoneBytes, TotalBytes, Remaining;
    var files;
    files, remaining, resumedBytes := PrepareIncoming(entries, recorded, parts);
    if files.Err? {
      return Err(files.error), remaining, resumedBytes;
    }
    ghost var done := ReloadedAll(entries, recorded);
    forall j | 0 <= j < |entries| && entries[j].kind != File
      ensures done[j] == {}
    {
      DirectoryHasNothing(entries[j], recorded);
    }
    var jobs := AgreeOnJobs(entries, done, files.value);
    forall job
      ensures job in jobs.value <==> IsMissing(PlansOf(entries), done, job)
    {
      if IsMissing(PlansOf(entries), done, job) {
        EveryMissingIsAJob(PlansOf(entries), done, 0, job);
      }
    }
    PlansCover(entries, 0);
    return Ok(jobs.value), remaining, resumedBytes;
  }

  lemma DirectoryHasNothing(e: Entry, recorded: map<string, seq<nat>>)
    requires e.kind != File
    ensures Reloaded(e, recorded) == {}
  {
  }
}
