/** What becomes of row and snapshot when other threads touch the same transfer between the two halves of an
    operation. */
module Interleavings {
  import opened Wrappers
  import opened Lifecycle
  import opened Core

  function AllTouched(slot: Slot, ts: seq<Touch>): Slot
    decreases |ts|
  {
    if ts == [] then slot else Touched(AllTouched(slot, ts[..|ts| - 1]), ts[|ts| - 1])
  }

  /** A touch that writes or removes the row it finds. */
  predicate WritesRow(slot: Slot, t: Touch) {
    match t
    case Store(_) => slot.memory.Some?
    case SaveRow(_) => true
    case DropRow => true
    case DropFinishedRow => slot.row.Some? && !IsActive(slot.row.value.state)
    case _ => false
  }

  /** The row the last such touch left, if there was one. */
  function LastRow(slot: Slot, ts: seq<Touch>): Option<Option<Snapshot>>
    decreases |ts|
  {
    if ts == [] then None
    else
      var before := AllTouched(slot, ts[..|ts| - 1]);
      if WritesRow(before, ts[|ts| - 1]) then Some(Touched(before, ts[|ts| - 1]).row)
      else LastRow(slot, ts[..|ts| - 1])
  }

  lemma {:induction false} RowIsTheLast(slot: Slot, ts: seq<Touch>)
    ensures AllTouched(slot, ts).row == match LastRow(slot, ts) case None => slot.row case Some(row) => row
    decreases |ts|
  {
    if ts != [] {
      RowIsTheLast(slot, ts[..|ts| - 1]);
    }
  }

  // ----- a new transfer: row, others, snapshot -----

  /** Row and new snapshot agree exactly if nobody wrote the row in between, or the last one to do so left a row that
      tells the same. */
  lemma {:induction false} NewAgreesExactly(slot: Slot, s: Snapshot, between: seq<Touch>)
    ensures var saved := Touched(slot, SaveRow(s));
            var end := Touched(AllTouched(saved, between), Insert(s));
            && end.memory == Some(s)
            && (Agrees(end) <==>
                  match LastRow(saved, between)
                  case None => true
                  case Some(row) => row.Some? && RowAgrees(s, row.value))
  {
    RowIsTheLast(Touched(slot, SaveRow(s)), between);
  }

  /** A snapshot from which a row would tell something else than the new one: another state, direction or total, or
      bytes. */
  predicate TellsOther(s: Snapshot, x: Snapshot) {
    x.state != s.state || x.incoming != s.incoming || x.totalBytes != s.totalBytes || x.completedBytes != 0
  }

  /** An operation that puts the row out of step with the new snapshot: a save of a snapshot that tells something else,
      or any removal of the row. */
  predicate Spoils(s: Snapshot, found: Slot, t: Touch) {
    match t
    case Store(x) => found.memory.Some? && TellsOther(s, x)
    case SaveRow(x) => TellsOther(s, x)
    case DropRow => true
    case DropFinishedRow => found.row.Some? && !IsActive(found.row.value.state)
    case _ => false
  }

  /** A save that happens to tell what the new snapshot tells. */
  predicate Mends(s: Snapshot, found: Slot, t: Touch) {
    match t
    case Store(x) => found.memory.Some? && !TellsOther(s, x)
    case SaveRow(x) => !TellsOther(s, x)
    case _ => false
  }

  predicate SpoilsAt(s: Snapshot, slot: Slot, ts: seq<Touch>, i: nat)
    requires i < |ts|
  {
    Spoils(s, AllTouched(slot, ts[..i]), ts[i])
  }

  predicate MendsAt(s: Snapshot, slot: Slot, ts: seq<Touch>, i: nat)
    requires i < |ts|
  {
    Mends(s, AllTouched(slot, ts[..i]), ts[i])
  }

  /** Every operation that spoils is followed by one that mends. */
  ghost predicate AllMended(s: Snapshot, slot: Slot, ts: seq<Touch>) {
    forall i | 0 <= i < |ts| && SpoilsAt(s, slot, ts, i) :: exists j | i < j < |ts| :: MendsAt(s, slot, ts, j)
  }

  lemma LongerTouches(s: Snapshot, slot: Slot, ts: seq<Touch>, i: nat)
    requires i + 1 < |ts|
    ensures SpoilsAt(s, slot, ts, i) <==> SpoilsAt(s, slot, ts[..|ts| - 1], i)
    ensures MendsAt(s, slot, ts, i) <==> MendsAt(s, slot, ts[..|ts| - 1], i)
  {
    assert ts[..|ts| - 1][..i] == ts[..i];
  }

  lemma LastTouchMends(s: Snapshot, slot: Slot, ts: seq<Touch>)
    requires ts != []
    ensures AllMended(s, slot, ts) <==>
              MendsAt(s, slot, ts, |ts| - 1)
              || (AllMended(s, slot, ts[..|ts| - 1]) && !SpoilsAt(s, slot, ts, |ts| - 1))
  {
    hide AllTouched, Spoils, Mends, SpoilsAt, MendsAt;
    var n, init := |ts| - 1, ts[..|ts| - 1];
    assert MendsAt(s, slot, ts, n) ==> !SpoilsAt(s, slot, ts, n) by {
      NotBoth(s, slot, ts, n);
    }
    forall i | 0 <= i < n
      ensures SpoilsAt(s, slot, ts, i) <==> SpoilsAt(s, slot, init, i)
      ensures MendsAt(s, slot, ts, i) <==> MendsAt(s, slot, init, i)
    {
      LongerTouches(s, slot, ts, i);
    }
    if AllMended(s, slot, ts) && !MendsAt(s, slot, ts, n) {
      forall i | 0 <= i < n && SpoilsAt(s, slot, init, i)
        ensures exists j | i < j < n :: MendsAt(s, slot, init, j)
      {
        var j :| i < j < |ts| && MendsAt(s, slot, ts, j);
        assert MendsAt(s, slot, init, j);
      }
    }
    if AllMended(s, slot, init) && !SpoilsAt(s, slot, ts, n) {
      forall i | 0 <= i < |ts| && SpoilsAt(s, slot, ts, i)
        ensures exists j | i < j < |ts| :: MendsAt(s, slot, ts, j)
      {
        var j :| i < j < n && MendsAt(s, slot, init, j);
        assert MendsAt(s, slot, ts, j);
      }
    }
  }

  lemma NotBoth(s: Snapshot, slot: Slot, ts: seq<Touch>, i: nat)
    requires i < |ts|
    ensures !(SpoilsAt(s, slot, ts, i) && MendsAt(s, slot, ts, i))
  {
  }

  /** The row still tells what the new snapshot tells exactly if every operation in between that spoils it is followed
      by one that mends it. */
  lemma {:induction false} MendedExactly(slot: Slot, s: Snapshot, ts: seq<Touch>)
    requires s.completedBytes == 0 && slot.row == Some(s)
    ensures var row := AllTouched(slot, ts).row;
            (row.Some? && !TellsOther(s, row.value)) <==> AllMended(s, slot, ts)
    decreases |ts|
  {
    if ts != [] {
      hide AllMended;
      MendedExactly(slot, s, ts[..|ts| - 1]);
      LastTouchMends(s, slot, ts);
    }
  }

  /** Which operations between the two halves of a new transfer leave its row out of step: those that spoil it, unless
      one that mends it comes later. */
  lemma NewSpoiledExactly(slot: Slot, s: Snapshot, between: seq<Touch>)
    requires s.completedBytes == 0
    ensures var saved := Touched(slot, SaveRow(s));
            Agrees(Touched(AllTouched(saved, between), Insert(s))) <==> AllMended(s, saved, between)
  {
    hide AllTouched, AllMended;
    MendedExactly(Touched(slot, SaveRow(s)), s, between);
  }

  /** What the core saves when the previous transfer under the id is changed in between: failing, interrupting or
      cancelling it always spoils a row that waits for acceptance or pairing; so does any progress. */
  lemma EndingSpoils(s: Snapshot, earlier: Snapshot, m: Mutation, error: Option<string>, row: Option<Snapshot>)
    requires s.state.WaitingForAcceptance? || s.state.Pairing?
    requires m.Fail? || m.Interrupt? || m.CancelWithError? || m.CancelFromRemote? || earlier.completedBytes > 0
    ensures Spoils(s, Slot(Some(earlier), row), Store(WithState(earlier, Mutated(earlier.state, m), error)))
  {
  }

  /** Nobody can spoil a transfer that is not in memory yet, short of deleting its row or offering it a second time. */
  lemma {:induction false} UnknownAgrees(slot: Slot, s: Snapshot, between: seq<Touch>)
    requires slot.memory.None? && IsActive(s.state)
    requires forall t | t in between :: !t.DropRow? && !t.SaveRow? && !t.Insert?
    ensures var saved := Touched(slot, SaveRow(s));
            AllTouched(saved, between) == saved && Agrees(Touched(AllTouched(saved, between), Insert(s)))
    decreases |between|
  {
    if between != [] {
      UnknownAgrees(slot, s, between[..|between| - 1]);
      assert between[|between| - 1] in between;
    }
  }

  /** The interleaving that spoils one: the old snapshot under the same id fails, and is saved, in between. Memory then
      waits for acceptance, and a restart finds a failed transfer instead of an interrupted one. */
  lemma FailureInBetweenSpoils(total: nat)
    ensures var earlier := Snapshot(Transferring, true, total, 0, None);
            var failed, s := earlier.(state := Failed), Snapshot(WaitingForAcceptance, true, total, 0, None);
            var saved := Touched(Slot(Some(earlier), Some(earlier)), SaveRow(s));
            var end := Touched(AllTouched(saved, [Store(failed)]), Insert(s));
            && !Agrees(end) && end.row == Some(failed)
            && Restored(end.row.value).state == Failed && Mutated(end.memory.value.state, Restart) == Interrupted
  {
    var earlier := Snapshot(Transferring, true, total, 0, None);
    var failed, s := earlier.(state := Failed), Snapshot(WaitingForAcceptance, true, total, 0, None);
    OneTouch(Touched(Slot(Some(earlier), Some(earlier)), SaveRow(s)), Store(failed));
  }

  lemma OneTouch(slot: Slot, t: Touch)
    ensures AllTouched(slot, [t]) == Touched(slot, t)
  {
    assert [t][..0] == [];
  }

  // ----- deleting one from the history: row, others, snapshot -----

  /** The snapshot is gone either way; the row is gone with it exactly if nobody wrote it again in between, or the last
      one to do so deleted it too. A row left behind comes back at the next start. */
  lemma {:induction false} DeletedTogetherExactly(slot: Slot, between: seq<Touch>)
    ensures var dropped := Touched(slot, DropRow);
            var end := Touched(AllTouched(dropped, between), DropSnapshot);
            && end.memory.None? && Agrees(end)
            && (end.row.None? <==>
                  match LastRow(dropped, between)
                  case None => true
                  case Some(row) => row.None?)
  {
    RowIsTheLast(Touched(slot, DropRow), between);
  }

  /** An operation that writes the row again. */
  predicate Resurrects(found: Slot, t: Touch) {
    (t.Store? && found.memory.Some?) || t.SaveRow?
  }

  /** An operation that removes it. */
  predicate Buries(found: Slot, t: Touch) {
    t.DropRow? || (t.DropFinishedRow? && found.row.Some? && !IsActive(found.row.value.state))
  }

  predicate ResurrectsAt(slot: Slot, ts: seq<Touch>, i: nat)
    requires i < |ts|
  {
    Resurrects(AllTouched(slot, ts[..i]), ts[i])
  }

  predicate BuriesAt(slot: Slot, ts: seq<Touch>, i: nat)
    requires i < |ts|
  {
    Buries(AllTouched(slot, ts[..i]), ts[i])
  }

  /** Operation `i` writes the row, and none after it removes it. */
  ghost predicate ResurrectedFrom(slot: Slot, ts: seq<Touch>, i: nat) {
    i < |ts| && ResurrectsAt(slot, ts, i) && forall j | i < j < |ts| :: !BuriesAt(slot, ts, j)
  }

  /** A deleted row is back exactly if some operation in between writes it and none after that removes it. */
  lemma {:induction false} ResurrectedExactly(slot: Slot, ts: seq<Touch>)
    requires slot.row.None?
    ensures AllTouched(slot, ts).row.Some? <==> exists i :: ResurrectedFrom(slot, ts, i)
    decreases |ts|
  {
    if ts != [] {
      var n, init := |ts| - 1, ts[..|ts| - 1];
      ResurrectedExactly(slot, init);
      forall i: nat | i < n
        ensures ResurrectedFrom(slot, ts, i) <==> ResurrectedFrom(slot, init, i) && !BuriesAt(slot, ts, n)
      {
        forall j | i <= j < n
          ensures ResurrectsAt(slot, ts, j) <==> ResurrectsAt(slot, init, j)
          ensures BuriesAt(slot, ts, j) <==> BuriesAt(slot, init, j)
        {
          assert init[..j] == ts[..j];
        }
      }
      assert ResurrectedFrom(slot, ts, n) <==> ResurrectsAt(slot, ts, n);
    }
  }

  /** A progress report that is saved in between leaves the row behind. */
  lemma ReportInBetweenResurrects(s: Snapshot, later: Snapshot)
    ensures Touched(AllTouched(Touched(Slot(Some(s), Some(s)), DropRow), [Store(later)]), DropSnapshot)
            == Slot(None, Some(later))
  {
    OneTouch(Touched(Slot(Some(s), Some(s)), DropRow), Store(later));
  }

  // ----- clearing the history: finished rows, others, finished snapshots -----

  /** An operation under the state lock that leaves the state alone, or writes the row. */
  predicate UnderLock(slot: Slot, t: Touch) {
    t.Store? || (t.Keep? && slot.memory.Some? && t.s.state == slot.memory.value.state)
  }

  ghost predicate AllUnderLock(slot: Slot, ts: seq<Touch>) {
    forall i | 0 <= i < |ts| :: UnderLock(AllTouched(slot, ts[..i]), ts[i])
  }

  lemma {:induction false} BetweenClears(slot: Slot, between: seq<Touch>)
    requires slot.memory.Some? && slot.row.Some? && slot.row.value.state == slot.memory.value.state
    requires AllUnderLock(Touched(slot, DropFinishedRow), between)
    ensures var cleared := Touched(slot, DropFinishedRow);
            var mid := AllTouched(cleared, between);
            && mid.memory.Some?
            && (mid.row.Some? ==> mid.row.value.state == mid.memory.value.state)
            && (mid.row.None? ==> !IsActive(mid.memory.value.state) && LastRow(cleared, between).None?)
    decreases |between|
  {
    if between != [] {
      var init := between[..|between| - 1];
      forall i | 0 <= i < |init|
        ensures UnderLock(AllTouched(Touched(slot, DropFinishedRow), init[..i]), init[i])
      {
        assert init[..i] == between[..i];
      }
      BetweenClears(slot, init);
    }
  }

  /** Clearing never leaves a snapshot without its row, whatever runs under the state lock in between. Row and snapshot
      go or stay together exactly unless the transfer was left finished by an operation that saved it in between; then
      the row stays behind alone. */
  lemma ClearedTogetherExactly(slot: Slot, between: seq<Touch>)
    requires slot.memory.Some? && slot.row.Some? && slot.row.value.state == slot.memory.value.state
    requires AllUnderLock(Touched(slot, DropFinishedRow), between)
    ensures var cleared := Touched(slot, DropFinishedRow);
            var mid := AllTouched(cleared, between);
            var end := Touched(mid, DropFinishedSnapshot);
            && mid.memory.Some?
            && (end.memory.Some? ==> end.row.Some? && end.row.value.state == end.memory.value.state)
            && ((end.memory.Some? <==> end.row.Some?) <==>
                  (IsActive(mid.memory.value.state) || LastRow(cleared, between).None?))
  {
    hide AllTouched, LastRow, AllUnderLock;
    BetweenClears(slot, between);
    RowIsTheLast(Touched(slot, DropFinishedRow), between);
  }
}
