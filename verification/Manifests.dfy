/** The manifest: which entries are valid, and how the list travels in pages. */
module Manifests {
  import opened Wrappers
  import opened Chunks
  import opened Text
  import opened Framing

  const MAX_PATH_BYTES: nat := 4096
  const MAX_SEGMENT_BYTES: nat := 255
  const MANIFEST_PAGE_ENTRIES: nat := 1000

  datatype EntryKind = File | Directory

  datatype Entry = Entry(
    itemId: string, relativePath: string, kind: EntryKind, size: nat, modifiedUnixMs: int, sourceRevision: string)

  datatype ManifestError =
    | EmptyPath
    | AbsolutePath
    | Backslash
    | ParentTraversal
    | InvalidSegment
    | PathTooLong
    | SegmentTooLong
    | DuplicatePath
    | DirectoryHasSize

  // ----- validation -----

  predicate HasWindowsDrivePrefix(path: string) {
    |path| >= 2 && ('a' <= path[0] <= 'z' || 'A' <= path[0] <= 'Z') && path[1] == ':'
  }

  function ValidateSegments(segments: seq<string>): (r: Result<(), ManifestError>)
    ensures r.Err? ==> r.error.ParentTraversal? || r.error.InvalidSegment? || r.error.SegmentTooLong?
  {
    if segments == [] then Ok(())
    else if segments[0] == ".." then Err(ParentTraversal)
    else if segments[0] == "" || segments[0] == "." then Err(InvalidSegment)
    else if ByteLength(segments[0]) > MAX_SEGMENT_BYTES then Err(SegmentTooLong)
    else if '\0' in segments[0] then Err(InvalidSegment)
    else ValidateSegments(segments[1..])
  }

  function ValidateRelativePath(path: string): (r: Result<(), ManifestError>)
    ensures r.Err? ==> !r.error.DuplicatePath? && !r.error.DirectoryHasSize?
  {
    if path == "" then Err(EmptyPath)
    else if ByteLength(path) > MAX_PATH_BYTES then Err(PathTooLong)
    else if path[0] == '/' || path[0] == '\\' || HasWindowsDrivePrefix(path) then Err(AbsolutePath)
    else if '\\' in path then Err(Backslash)
    else ValidateSegments(Split(path))
  }

  /** A name that stays inside the directory it is put in. */
  predicate PlainName(name: string) {
    name != "" && name != "." && name != ".." && Slashless(name)
  }

  lemma {:induction false} SegmentsAcceptedExactly(segments: seq<string>)
    ensures ValidateSegments(segments).Ok? <==>
              forall s | s in segments ::
                s != "" && s != "." && s != ".." && ByteLength(s) <= MAX_SEGMENT_BYTES && '\0' !in s
  {
    if segments != [] {
      SegmentsAcceptedExactly(segments[1..]);
      assert segments[0] in segments;
      assert forall s :: s in segments <==> s == segments[0] || s in segments[1..];
    }
  }

  /** An accepted path is relative and every segment is a plain name. */
  lemma AcceptedPathIsConfined(path: string)
    requires ValidateRelativePath(path).Ok?
    ensures forall s | s in Split(path) :: PlainName(s)
    ensures path[0] != '/' && '\\' !in path
  {
    SegmentsAcceptedExactly(Split(path));
    JoinSplit(path);
  }

  /** A path is accepted exactly if it is not empty, not too long, not absolute in any system's sense, has no backslash,
      and consists of acceptable segments. */
  lemma PathAcceptedExactly(path: string)
    ensures ValidateRelativePath(path).Ok? <==>
              && 1 <= |path| && ByteLength(path) <= 4096 && '\\' !in path && path[0] != '/'
              && !(|path| >= 2 && path[1] == ':' && (path[0] in "abcdefghijklmnopqrstuvwxyz"
                                                     || path[0] in "ABCDEFGHIJKLMNOPQRSTUVWXYZ"))
              && forall s | s in Split(path) ::
                   s != "" && s != "." && s != ".." && ByteLength(s) <= 255 && '\0' !in s
  {
    hide Split, ByteLength, ValidateSegments, HasWindowsDrivePrefix;
    SegmentsAcceptedExactly(Split(path));
    DrivePrefixExactly(path);
  }

  lemma DrivePrefixExactly(path: string)
    ensures HasWindowsDrivePrefix(path) <==>
              |path| >= 2 && path[1] == ':' && (path[0] in "abcdefghijklmnopqrstuvwxyz"
                                                || path[0] in "ABCDEFGHIJKLMNOPQRSTUVWXYZ")
  {
    if |path| >= 1 {
      LetterExactly(path[0]);
    }
  }

  lemma LetterExactly(c: char)
    ensures 'a' <= c <= 'z' <==> c in "abcdefghijklmnopqrstuvwxyz"
    ensures 'A' <= c <= 'Z' <==> c in "ABCDEFGHIJKLMNOPQRSTUVWXYZ"
  {
    var lower, upper := "abcdefghijklmnopqrstuvwxyz", "ABCDEFGHIJKLMNOPQRSTUVWXYZ";
    assert forall i | 0 <= i < 26 :: lower[i] as int == 'a' as int + i && upper[i] as int == 'A' as int + i;
    if 'a' <= c <= 'z' {
      assert lower[c as int - 'a' as int] == c;
    }
    if 'A' <= c <= 'Z' {
      assert upper[c as int - 'A' as int] == c;
    }
  }

  predicate EntryValid(e: Entry) {
    ValidateRelativePath(e.relativePath).Ok? && (e.kind == Directory ==> e.size == 0)
  }

  ghost predicate ValidManifest(entries: seq<Entry>) {
    && (forall i | 0 <= i < |entries| :: EntryValid(entries[i]))
    && (forall i, j | 0 <= i < j < |entries| :: entries[i].relativePath != entries[j].relativePath)
  }

  method Validate(entries: seq<Entry>) returns (r: Result<(), ManifestError>)
    ensures r.Ok? <==> ValidManifest(entries)
    ensures r.Ok? <==>
              && (forall i | 0 <= i < |entries| :: ValidateRelativePath(entries[i].relativePath).Ok?)
              && (forall i | 0 <= i < |entries| && entries[i].kind == Directory :: entries[i].size == 0)
              && (forall i, j | 0 <= i < j < |entries| :: entries[i].relativePath != entries[j].relativePath)
    ensures r == Err(DuplicatePath) ==>
              exists i, j | 0 <= i < j < |entries| :: entries[i].relativePath == entries[j].relativePath
    ensures r == Err(DirectoryHasSize) ==>
              exists i | 0 <= i < |entries| :: entries[i].kind == Directory && entries[i].size != 0
  {
    hide ValidateRelativePath;
    var paths: set<string> := {};
    var i := 0;
    while i < |entries|
      invariant i <= |entries|
      invariant forall j | 0 <= j < i :: EntryValid(entries[j]) && entries[j].relativePath in paths
      invariant forall p :: p in paths ==> exists j | 0 <= j < i :: entries[j].relativePath == p
      invariant forall j, k | 0 <= j < k < i :: entries[j].relativePath != entries[k].relativePath
    {
      var entry := entries[i];
      var valid := ValidateRelativePath(entry.relativePath);
      if valid.Err? {
        assert !EntryValid(entries[i]);
        return Err(valid.error);
      }
      if entry.kind == Directory && entry.size != 0 {
        assert !EntryValid(entries[i]);
        return Err(DirectoryHasSize);
      }
      if entry.relativePath in paths {
        return Err(DuplicatePath);
      }
      paths := paths + {entry.relativePath};
      i := i + 1;
    }
    return Ok(());
  }

  // ----- paging -----

  datatype OutgoingEntry = OutgoingEntry(entry: Entry, randomAccess: bool)

  datatype WireEntry = WireEntry(
    itemId: string, relativePath: string, kind: int, size: nat, modifiedUnixMs: int, sourceRevision: string,
    randomAccess: bool)

  datatype ManifestPage = ManifestPage(transferId: string, pageIndex: nat, isLast: bool, entries: seq<WireEntry>)

  datatype Payload = Page(page: ManifestPage) | OtherPayload(tag: nat)

  datatype ReadError =
    | Protocol(error: FrameError)
    | UnexpectedMessage
    | InvalidManifestPage
    | InvalidManifestKind
    | DuplicateItemId

  function ToWire(e: OutgoingEntry): WireEntry {
    WireEntry(e.entry.itemId, e.entry.relativePath, match e.entry.kind case File => 1 case Directory => 2,
              e.entry.size, e.entry.modifiedUnixMs, e.entry.sourceRevision, e.randomAccess)
  }

  function FromWire(w: WireEntry): Option<Entry> {
    if w.kind == 1 then Some(Entry(w.itemId, w.relativePath, File, w.size, w.modifiedUnixMs, w.sourceRevision))
    else if w.kind == 2
        then Some(Entry(w.itemId, w.relativePath, Directory, w.size, w.modifiedUnixMs, w.sourceRevision))
    else None
  }

  /** What an entry becomes on the wire: a file is of kind 1, a directory of kind 2, the rest is as it was. */
  lemma WireExactly(e: OutgoingEntry, w: WireEntry)
    ensures ToWire(e) == w <==>
              && w.itemId == e.entry.itemId && w.relativePath == e.entry.relativePath && w.size == e.entry.size
              && w.modifiedUnixMs == e.entry.modifiedUnixMs && w.sourceRevision == e.entry.sourceRevision
              && w.randomAccess == e.randomAccess && w.kind == (if e.entry.kind == File then 1 else 2)
  {
  }

  function ToWireAll(entries: seq<OutgoingEntry>): (r: seq<WireEntry>)
    ensures |r| == |entries|
  {
    if entries == [] then [] else [ToWire(entries[0])] + ToWireAll(entries[1..])
  }

  function FromWireAll(entries: seq<WireEntry>): Result<seq<Entry>, ReadError> {
    if entries == [] then Ok([])
    else
      match FromWire(entries[0])
      case None => Err(InvalidManifestKind)
      case Some(entry) =>
        var rest :- FromWireAll(entries[1..]);
        Ok([entry] + rest)
  }

  /** The entries as the receiver keeps them. */
  function Received(entries: seq<OutgoingEntry>): (r: seq<Entry>)
    ensures |r| == |entries|
    ensures forall i | 0 <= i < |r| :: r[i] == entries[i].entry
  {
    if entries == [] then [] else [entries[0].entry] + Received(entries[1..])
  }

  lemma {:induction false} WireRoundTrip(entries: seq<OutgoingEntry>)
    ensures FromWireAll(ToWireAll(entries)) == Ok(Received(entries))
  {
    if entries != [] {
      WireRoundTrip(entries[1..]);
      assert ToWireAll(entries)[1..] == ToWireAll(entries[1..]);
    }
  }

  /** The page starting at entry `at`, as `write_manifest` builds it. */
  function PageFrom(transferId: string, entries: seq<OutgoingEntry>, at: nat): ManifestPage
    requires at < |entries|
  {
    var index := at / MANIFEST_PAGE_ENTRIES;
    ManifestPage(transferId, index % (U32_MAX + 1), (index + 1) * MANIFEST_PAGE_ENTRIES >= |entries|,
                 ToWireAll(entries[at..Min(at + MANIFEST_PAGE_ENTRIES, |entries|)]))
  }

  /** How many pages a manifest takes. */
  function PageCount(entries: seq<OutgoingEntry>): nat {
    DivCeil(|entries|, MANIFEST_PAGE_ENTRIES)
  }

  /** The last-page flag stands on exactly the final page, also when the pages come out full, and the pages number on
      from zero and hold all entries between them. */
  lemma LastFlagExactly(transferId: string, entries: seq<OutgoingEntry>, p: nat)
    requires p < PageCount(entries) <= U32_MAX
    ensures p * MANIFEST_PAGE_ENTRIES < |entries|
    ensures var page := PageFrom(transferId, entries, p * MANIFEST_PAGE_ENTRIES);
            && (page.isLast <==> p + 1 == PageCount(entries))
            && page.pageIndex == p
            && |page.entries|
               == (if p + 1 < PageCount(entries) then MANIFEST_PAGE_ENTRIES else |entries| - p * MANIFEST_PAGE_ENTRIES)
            && 0 < |page.entries| <= MANIFEST_PAGE_ENTRIES
  {
    DivCeilBounds(|entries|, MANIFEST_PAGE_ENTRIES);
  }

  function PageBody(codec: Codec<Envelope<Payload>>, transferId: string, entries: seq<OutgoingEntry>, at: nat): Bytes
    requires at < |entries|
  {
    codec.encode(Wrap(Page(PageFrom(transferId, entries, at))))
  }

  /** Every page from entry `at` on fits a control frame. */
  predicate PagesFit(codec: Codec<Envelope<Payload>>, transferId: string, entries: seq<OutgoingEntry>, at: nat)
    decreases |entries| - at
  {
    at < |entries| ==>
      && |PageBody(codec, transferId, entries, at)| <= MAX_CONTROL_FRAME_BYTES
      && PagesFit(codec, transferId, entries, at + MANIFEST_PAGE_ENTRIES)
  }

  function PagesBytes(codec: Codec<Envelope<Payload>>, transferId: string, entries: seq<OutgoingEntry>, at: nat): Bytes
    requires PagesFit(codec, transferId, entries, at)
    decreases |entries| - at
  {
    if at >= |entries| then []
    else Frame(PageBody(codec, transferId, entries, at))
         + PagesBytes(codec, transferId, entries, at + MANIFEST_PAGE_ENTRIES)
  }

  /** `write_manifest`: fails exactly when some page is too large for a frame. */
  method WriteManifest(codec: Codec<Envelope<Payload>>, transferId: string, entries: seq<OutgoingEntry>, pipe: Pipe)
    returns (r: Result<(), FrameError>)
    modifies pipe
    ensures r.Ok? <==> PagesFit(codec, transferId, entries, 0)
    ensures r.Ok? ==> pipe.bytes == old(pipe.bytes) + PagesBytes(codec, transferId, entries, 0)
  {
    hide ToWireAll;
    var at := 0;
    while at < |entries|
      invariant at % MANIFEST_PAGE_ENTRIES == 0
      invariant PagesFit(codec, transferId, entries, at) <==> PagesFit(codec, transferId, entries, 0)
      invariant PagesFit(codec, transferId, entries, 0) ==>
                  pipe.bytes + PagesBytes(codec, transferId, entries, at)
                  == old(pipe.bytes) + PagesBytes(codec, transferId, entries, 0)
      decreases |entries| - at
    {
      ghost var before := pipe.bytes;
      var index := at / MANIFEST_PAGE_ENTRIES;
      var page := entries[at..Min(at + MANIFEST_PAGE_ENTRIES, |entries|)];
      var isLast := (index + 1) * MANIFEST_PAGE_ENTRIES >= |entries|;
      var payload := Page(ManifestPage(transferId, index % (U32_MAX + 1), isLast, ToWireAll(page)));
      var wrote := WriteEnvelope(pipe, codec, Wrap(payload));
      if wrote.Err? {
        return wrote;
      }
      if PagesFit(codec, transferId, entries, 0) {
        ConcatAssociates(before, Frame(PageBody(codec, transferId, entries, at)),
                         PagesBytes(codec, transferId, entries, at + MANIFEST_PAGE_ENTRIES));
      }
      at := at + MANIFEST_PAGE_ENTRIES;
    }
    return Ok(());
  }

  /** The entries a reader expecting page `expected` gets from a stream, and what follows the last page. */
  function TakeManifest(codec: Codec<Envelope<Payload>>, transferId: string, stream: Bytes, expected: nat)
    : Result<(seq<Entry>, Bytes), ReadError>
    decreases |stream|
  {
    match TakeEnvelope(stream, codec)
    case Err(error) => Err(Protocol(error))
    case Ok(taken) =>
      match taken.0.payload
      case OtherPayload(_) => Err(UnexpectedMessage)
      case Page(page) =>
        if page.transferId != transferId || page.pageIndex != expected then Err(InvalidManifestPage)
        else
          var entries :- FromWireAll(page.entries);
          if page.isLast then Ok((entries, taken.1))
          else if expected == U32_MAX then Err(InvalidManifestPage)
          else
            var later :- TakeManifest(codec, transferId, taken.1, expected + 1);
            Ok((entries + later.0, later.1))
  }

  predicate DistinctIds(entries: seq<Entry>) {
    forall i, j | 0 <= i < j < |entries| :: entries[i].itemId != entries[j].itemId
  }

  /** The set of ids the receiver collects. */
  function Ids(entries: seq<Entry>): set<string>
    decreases |entries|
  {
    if entries == [] then {} else Ids(entries[..|entries| - 1]) + {entries[|entries| - 1].itemId}
  }

  lemma {:induction false} IdsMeaning(entries: seq<Entry>, id: string)
    ensures id in Ids(entries) <==> exists i | 0 <= i < |entries| :: entries[i].itemId == id
    decreases |entries|
  {
    if entries != [] {
      IdsMeaning(entries[..|entries| - 1], id);
      assert entries == entries[..|entries| - 1] + [entries[|entries| - 1]];
    }
  }

  lemma DistinctGrow(init: seq<Entry>, last: Entry)
    ensures DistinctIds(init + [last]) <==> DistinctIds(init) && last.itemId !in Ids(init)
  {
    var all := init + [last];
    IdsMeaning(init, last.itemId);
    if DistinctIds(all) {
      forall i, j | 0 <= i < j < |init|
        ensures init[i].itemId != init[j].itemId
      {
        assert all[i].itemId != all[j].itemId;
      }
      forall i | 0 <= i < |init|
        ensures init[i].itemId != last.itemId
      {
        assert all[i].itemId != all[|init|].itemId;
      }
    }
  }

  /** As many different ids as entries means no id repeats. */
  lemma {:induction false} IdCount(entries: seq<Entry>)
    ensures |Ids(entries)| <= |entries|
    ensures |Ids(entries)| == |entries| <==> DistinctIds(entries)
    decreases |entries|
  {
    if entries != [] {
      var init, last := entries[..|entries| - 1], entries[|entries| - 1];
      IdCount(init);
      DistinctGrow(init, last);
      assert entries == init + [last];
      if last.itemId in Ids(init) {
        assert Ids(entries) == Ids(init);
      }
    }
  }

  /** `read_manifest`. */
  method ReadManifest(codec: Codec<Envelope<Payload>>, transferId: string, pipe: Pipe)
    returns (r: Result<seq<Entry>, ReadError>)
    modifies pipe
    ensures match TakeManifest(codec, transferId, old(pipe.bytes), 0)
            case Err(error) => r == Err(error)
            case Ok(taken) =>
              pipe.bytes == taken.1 && r == if DistinctIds(taken.0) then Ok(taken.0) else Err(DuplicateItemId)
  {
    var entries: seq<Entry> := [];
    var expected := 0;
    ghost var whole := TakeManifest(codec, transferId, pipe.bytes, 0);
    if whole.Ok? {
      assert entries + whole.value.0 == whole.value.0;
    }
    while true
      invariant match TakeManifest(codec, transferId, pipe.bytes, expected)
                case Err(error) => whole == Err(error)
                case Ok(taken) => whole == Ok((entries + taken.0, taken.1))
      decreases |pipe.bytes|
    {
      var envelope := ReadEnvelope(pipe, codec);
      if envelope.Err? {
        return Err(Protocol(envelope.error));
      }
      if envelope.value.payload.OtherPayload? {
        return Err(UnexpectedMessage);
      }
      var page := envelope.value.payload.page;
      if page.transferId != transferId || page.pageIndex != expected {
        return Err(InvalidManifestPage);
      }
      var read := FromWireAll(page.entries);
      if read.Err? {
        return Err(read.error);
      }
      ghost var before := entries;
      entries := entries + read.value;
      if page.isLast {
        break;
      }
      if expected == U32_MAX {
        return Err(InvalidManifestPage);
      }
      expected := expected + 1;
      var later := TakeManifest(codec, transferId, pipe.bytes, expected);
      if later.Ok? {
        ConcatAssociates(before, read.value, later.value.0);
      }
    }
    IdCount(entries);
    if |Ids(entries)| != |entries| {
      return Err(DuplicateItemId);
    }
    return Ok(entries);
  }

  lemma ReceivedPart(entries: seq<OutgoingEntry>, from: nat, to: nat)
    requires from <= to <= |entries|
    ensures Received(entries[from..to]) == Received(entries)[from..to]
  {
  }

  /** The stream holds these pages in envelopes, one after another, and `rest` behind them. */
  ghost predicate HoldsPages(codec: Codec<Envelope<Payload>>, stream: Bytes, pages: seq<ManifestPage>, rest: Bytes) {
    if pages == [] then stream == rest
    else
      match TakeEnvelope(stream, codec)
      case Err(_) => false
      case Ok(taken) => taken.0.payload == Page(pages[0]) && HoldsPages(codec, taken.1, pages[1..], rest)
  }

  function EntriesOf(pages: seq<ManifestPage>): seq<WireEntry> {
    if pages == [] then [] else pages[0].entries + EntriesOf(pages[1..])
  }

  /** Pages of this transfer, numbered on from `first`, the last of them flagged and no other. */
  ghost predicate InSequence(transferId: string, pages: seq<ManifestPage>, first: nat) {
    && pages != [] && first + |pages| <= U32_MAX + 1
    && forall i | 0 <= i < |pages| ::
         && pages[i].transferId == transferId && pages[i].pageIndex == first + i
         && (pages[i].isLast <==> i + 1 == |pages|)
  }

  lemma {:induction false} FromWireConcat(a: seq<WireEntry>, b: seq<WireEntry>)
    ensures FromWireAll(a + b) == match FromWireAll(a)
                                  case Err(error) => Err(error)
                                  case Ok(first) =>
                                    match FromWireAll(b)
                                    case Err(error) => Err(error)
                                    case Ok(second) => Ok(first + second)
  {
    if a == [] {
      assert a + b == b;
      if FromWireAll(b).Ok? {
        assert [] + FromWireAll(b).value == FromWireAll(b).value;
      }
    } else {
      assert (a + b)[1..] == a[1..] + b;
      FromWireConcat(a[1..], b);
      if FromWire(a[0]).Some? && FromWireAll(a[1..]).Ok? && FromWireAll(b).Ok? {
        ConcatAssociates([FromWire(a[0]).value], FromWireAll(a[1..]).value, FromWireAll(b).value);
      }
    }
  }

  /** A kind other than file and directory is refused, wherever it stands. */
  lemma {:induction false} KindsExactly(entries: seq<WireEntry>)
    ensures FromWireAll(entries).Ok? <==> forall w | w in entries :: w.kind == 1 || w.kind == 2
    ensures FromWireAll(entries).Err? ==> FromWireAll(entries).error == InvalidManifestKind
  {
    if entries != [] {
      KindsExactly(entries[1..]);
      assert entries[0] in entries && forall w :: w in entries <==> w == entries[0] || w in entries[1..];
    }
  }

  /** A sequence of pages is its first page and, unless that is the last, a sequence from the next number on. */
  lemma SequenceStep(transferId: string, pages: seq<ManifestPage>, first: nat)
    requires pages != []
    ensures InSequence(transferId, pages, first) <==>
              && pages[0].transferId == transferId && pages[0].pageIndex == first && first <= U32_MAX
              && (if pages[0].isLast then |pages| == 1
                  else first < U32_MAX && InSequence(transferId, pages[1..], first + 1))
  {
    if InSequence(transferId, pages, first) && !pages[0].isLast {
      assert pages[0].isLast <==> 0 + 1 == |pages|;
      forall i | 0 <= i < |pages[1..]|
        ensures pages[1..][i].transferId == transferId && pages[1..][i].pageIndex == first + 1 + i
        ensures pages[1..][i].isLast <==> i + 1 == |pages[1..]|
      {
        assert pages[1..][i] == pages[i + 1];
      }
    }
    if pages[0].transferId == transferId && pages[0].pageIndex == first && !pages[0].isLast
       && InSequence(transferId, pages[1..], first + 1) {
      forall i | 0 <= i < |pages|
        ensures pages[i].transferId == transferId && pages[i].pageIndex == first + i
        ensures pages[i].isLast <==> i + 1 == |pages|
      {
        if i > 0 {
          assert pages[1..][i - 1] == pages[i];
        }
      }
    }
  }

  lemma {:induction false} AcceptsPages(codec: Codec<Envelope<Payload>>, transferId: string, stream: Bytes, first: nat,
                                        pages: seq<ManifestPage>, entries: seq<Entry>, rest: Bytes)
    requires HoldsPages(codec, stream, pages, rest) && InSequence(transferId, pages, first)
    requires FromWireAll(EntriesOf(pages)) == Ok(entries)
    ensures TakeManifest(codec, transferId, stream, first) == Ok((entries, rest))
    decreases |pages|
  {
    assert pages != [];
    hide TakeEnvelope, FromWireAll, InSequence;
    SequenceStep(transferId, pages, first);
    FromWireConcat(pages[0].entries, EntriesOf(pages[1..]));
    var taken := TakeEnvelope(stream, codec).value;
    if pages[0].isLast {
      assert pages[1..] == [];
      NoWireEntries();
      assert pages[0].entries + [] == pages[0].entries;
    } else {
      var later := FromWireAll(EntriesOf(pages[1..])).value;
      AcceptsPages(codec, transferId, taken.1, first + 1, pages[1..], later, rest);
    }
  }

  lemma NoWireEntries()
    ensures FromWireAll([]) == Ok([])
  {
  }

  lemma {:induction false} AcceptedCameInPages(codec: Codec<Envelope<Payload>>, transferId: string, stream: Bytes,
                                               first: nat, entries: seq<Entry>, rest: Bytes)
    returns (pages: seq<ManifestPage>)
    requires TakeManifest(codec, transferId, stream, first) == Ok((entries, rest)) && first <= U32_MAX
    ensures HoldsPages(codec, stream, pages, rest) && InSequence(transferId, pages, first)
    ensures FromWireAll(EntriesOf(pages)) == Ok(entries)
    decreases |stream|
  {
    hide TakeEnvelope, FromWireAll, InSequence;
    NoWireEntries();
    var taken := TakeEnvelope(stream, codec).value;
    var page := taken.0.payload.page;
    var later: seq<ManifestPage> := [];
    if !page.isLast {
      var next := TakeManifest(codec, transferId, taken.1, first + 1).value;
      FollowsOn(stream, codec);
      later := AcceptedCameInPages(codec, transferId, taken.1, first + 1, next.0, rest);
    }
    pages := [page] + later;
    assert pages[0] == page && pages[1..] == later;
    SequenceStep(transferId, pages, first);
    FromWireConcat(page.entries, EntriesOf(later));
    assert entries + [] == entries;
  }

  lemma FollowsOn<P>(stream: Bytes, codec: Codec<Envelope<P>>)
    requires TakeEnvelope(stream, codec).Ok?
    ensures |TakeEnvelope(stream, codec).value.1| < |stream|
  {
  }

  /** A stream is accepted as a manifest exactly if it holds pages of this transfer numbered from zero, the last of
      them and no other flagged as the last, whose entries are files and directories; what is read are their entries in
      order. */
  lemma ManifestAcceptedExactly(codec: Codec<Envelope<Payload>>, transferId: string, stream: Bytes,
                                entries: seq<Entry>, rest: Bytes)
    ensures TakeManifest(codec, transferId, stream, 0) == Ok((entries, rest)) <==>
              exists pages :: && HoldsPages(codec, stream, pages, rest) && InSequence(transferId, pages, 0)
                              && FromWireAll(EntriesOf(pages)) == Ok(entries)
  {
    if TakeManifest(codec, transferId, stream, 0) == Ok((entries, rest)) {
      var pages := AcceptedCameInPages(codec, transferId, stream, 0, entries, rest);
    }
    if pages :| && HoldsPages(codec, stream, pages, rest) && InSequence(transferId, pages, 0)
                && FromWireAll(EntriesOf(pages)) == Ok(entries) {
      AcceptsPages(codec, transferId, stream, 0, pages, entries, rest);
    }
  }

  /** One written page is read as its own entries, followed by whatever the next page brings. */
  lemma OnePage(
    codec: Codec<Envelope<Payload>>, transferId: string, entries: seq<OutgoingEntry>, at: nat, stream: Bytes)
    requires Inverse(codec) && |entries| <= U32_MAX && at < |entries| && at % MANIFEST_PAGE_ENTRIES == 0
    requires |PageBody(codec, transferId, entries, at)| <= MAX_CONTROL_FRAME_BYTES
    ensures var index, end := at / MANIFEST_PAGE_ENTRIES, Min(at + MANIFEST_PAGE_ENTRIES, |entries|);
            var part := Received(entries)[at..end];
            TakeManifest(codec, transferId, Frame(PageBody(codec, transferId, entries, at)) + stream, index)
            == if end == |entries| then Ok((part, stream))
               else match TakeManifest(codec, transferId, stream, index + 1)
                    case Err(error) => Err(error)
                    case Ok(later) => Ok((part + later.0, later.1))
  {
    var end := Min(at + MANIFEST_PAGE_ENTRIES, |entries|);
    EnvelopeRoundTrip(codec, Page(PageFrom(transferId, entries, at)), stream);
    WireRoundTrip(entries[at..end]);
    ReceivedPart(entries, at, end);
    hide ToWireAll, FromWireAll, Received, TakeEnvelope;
  }

  /** Reading the pages written from entry `at` on returns exactly the entries from `at` on. */
  lemma {:induction false} PagesRoundTrip(
    codec: Codec<Envelope<Payload>>, transferId: string, entries: seq<OutgoingEntry>, at: nat, rest: Bytes)
    requires Inverse(codec) && |entries| <= U32_MAX
    requires at < |entries| && at % MANIFEST_PAGE_ENTRIES == 0 && PagesFit(codec, transferId, entries, at)
    ensures TakeManifest(codec, transferId, PagesBytes(codec, transferId, entries, at) + rest,
              at / MANIFEST_PAGE_ENTRIES)
            == Ok((Received(entries)[at..], rest))
    decreases |entries| - at
  {
    var next := at + MANIFEST_PAGE_ENTRIES;
    NextIndex(at);
    PagesStep(codec, transferId, entries, at, rest);
    var later := PagesBytes(codec, transferId, entries, next) + rest;
    OnePage(codec, transferId, entries, at, later);
    if next < |entries| {
      PagesRoundTrip(codec, transferId, entries, next, rest);
      SplitAt(Received(entries), at, next);
    } else {
      assert later == rest;
      assert Received(entries)[at..|entries|] == Received(entries)[at..];
    }
  }

  lemma NextIndex(at: nat)
    requires at % MANIFEST_PAGE_ENTRIES == 0
    ensures (at + MANIFEST_PAGE_ENTRIES) % MANIFEST_PAGE_ENTRIES == 0
    ensures (at + MANIFEST_PAGE_ENTRIES) / MANIFEST_PAGE_ENTRIES == at / MANIFEST_PAGE_ENTRIES + 1
  {
  }

  lemma PagesStep(codec: Codec<Envelope<Payload>>, transferId: string, entries: seq<OutgoingEntry>, at: nat,
                  rest: Bytes)
    requires at < |entries| && PagesFit(codec, transferId, entries, at)
    ensures PagesBytes(codec, transferId, entries, at) + rest
            == Frame(PageBody(codec, transferId, entries, at))
               + (PagesBytes(codec, transferId, entries, at + MANIFEST_PAGE_ENTRIES) + rest)
  {
    ConcatAssociates(Frame(PageBody(codec, transferId, entries, at)),
                     PagesBytes(codec, transferId, entries, at + MANIFEST_PAGE_ENTRIES), rest);
  }

  lemma SplitAt<T>(s: seq<T>, from: nat, to: nat)
    requires from <= to <= |s|
    ensures s[from..] == s[from..to] + s[to..]
  {
  }

  /** Every non-empty list whose pages fit comes back unchanged and in order, whatever its length, and the
      bytes behind the last page stay unread; an empty list writes nothing and cannot be read. */
  lemma ManifestRoundTrip(codec: Codec<Envelope<Payload>>, transferId: string, entries: seq<OutgoingEntry>, rest: Bytes)
    requires Inverse(codec) && |entries| <= U32_MAX && PagesFit(codec, transferId, entries, 0)
    ensures entries != [] ==>
              TakeManifest(codec, transferId, PagesBytes(codec, transferId, entries, 0) + rest, 0)
              == Ok((Received(entries), rest))
    ensures entries == [] ==> TakeManifest(codec, transferId, PagesBytes(codec, transferId, entries, 0), 0).Err?
  {
    if entries != [] {
      PagesRoundTrip(codec, transferId, entries, 0, rest);
    }
  }
}
