/** The core's transfers in memory and the rows written through to the database. A save may fail; every operation says
    what that leaves behind, and a restart reads the rows back. */
module Core {
  import opened Wrappers
  import opened Lifecycle

  type Id = nat

  datatype Snapshot = Snapshot(state: TransferState, incoming: bool, totalBytes: nat, completedBytes: nat,
                               error: Option<string>)

  datatype CoreError = UnknownTransfer(id: Id) | Lifecycle(error: LifecycleError) | Repository | Job

  const SAVE_INTERVAL: nat := 500

  // ----- progress -----

  function AllReported(completed: nat, added: seq<nat>, total: nat): nat
    decreases |added|
  {
    if added == [] then completed
    else AddProgress(AllReported(completed, added[..|added| - 1], total), added[|added| - 1], total)
  }

  function Sum(added: seq<nat>): nat
    decreases |added|
  {
    if added == [] then 0 else Sum(added[..|added| - 1]) + added[|added| - 1]
  }

  /** Any number of reports adds up exactly, up to the total: neither saturation nor clamp loses a byte before the sum
      reaches it. */
  lemma {:induction false} ReportsAddUp(completed: nat, added: seq<nat>, total: nat)
    requires completed <= total <= U64_MAX
    ensures AllReported(completed, added, total) == Min(completed + Sum(added), total)
    decreases |added|
  {
    if added != [] {
      ReportsAddUp(completed, added[..|added| - 1], total);
    }
  }

  /** When a progress report is written to the database. */
  predicate SaveDue(previous: nat, completed: nat, total: nat, elapsed: int) {
    completed >= total || (previous == 0 && completed > 0) || elapsed >= SAVE_INTERVAL
  }

  // ----- a row and a snapshot -----

  /** The row tells the same state, and at most the same progress: all of it once the total is reached. */
  predicate RowAgrees(memory: Snapshot, row: Snapshot) {
    && row.state == memory.state && row.incoming == memory.incoming && row.totalBytes == memory.totalBytes
    && row.completedBytes <= memory.completedBytes
    && (memory.completedBytes >= memory.totalBytes ==> row.completedBytes == memory.completedBytes)
  }

  /** What a start of the core makes of a row. */
  function Restored(row: Snapshot): Snapshot {
    if IsActive(row.state) then row.(state := Interrupted, error := Some("restart")) else row
  }

  function WithState(s: Snapshot, state: TransferState, error: Option<string>): Snapshot {
    s.(state := state, error := error)
  }

  /** What an operation may change: the snapshots in memory, the rows, and which rows are out of date. */
  datatype View = View(transfers: map<Id, Snapshot>, rows: map<Id, Snapshot>, stale: set<Id>)

  /** One transfer's state is mutated as asked; its bytes and every other transfer stay; the row follows unless the save
      fails, and a refused mutation changes nothing. */
  ghost predicate Changed(before: View, after: View, id: Id, m: Mutation, r: Result<(), CoreError>)
    requires id in before.transfers
  {
    && id in after.transfers
    && after.transfers[id].state == Mutated(before.transfers[id].state, m)
    && after.transfers == before.transfers[id := WithState(before.transfers[id], after.transfers[id].state,
                                                             after.transfers[id].error)]
    && (r.Ok? ==> after.rows == before.rows[id := after.transfers[id]] && after.stale == before.stale - {id})
    && (r.Err? && r.error.Repository? ==> after.rows == before.rows && after.stale == before.stale + {id})
    && (r.Err? && !r.error.Repository? ==> after == before)
  }

  // ----- one transfer, touched by several threads -----

  /** What memory and database hold under one id. */
  datatype Slot = Slot(memory: Option<Snapshot>, row: Option<Snapshot>)

  predicate Agrees(slot: Slot) {
    slot.memory.Some? ==> slot.row.Some? && RowAgrees(slot.memory.value, slot.row.value)
  }

  /** What one thread does to a slot between taking and releasing a lock. `Store` and `Keep` hold the state lock and
      need a snapshot to change; the other six are the halves of the operations that write the row without that lock and
      touch the snapshot only later, or the other way round. */
  datatype Touch =
    | Store(s: Snapshot)
    | Keep(s: Snapshot)
    | SaveRow(s: Snapshot)
    | Insert(s: Snapshot)
    | DropRow
    | DropSnapshot
    | DropFinishedRow
    | DropFinishedSnapshot

  function Touched(slot: Slot, t: Touch): Slot {
    match t
    case Store(s) => if slot.memory.Some? then Slot(Some(s), Some(s)) else slot
    case Keep(s) => if slot.memory.Some? then slot.(memory := Some(s)) else slot
    case SaveRow(s) => slot.(row := Some(s))
    case Insert(s) => slot.(memory := Some(s))
    case DropRow => slot.(row := None)
    case DropSnapshot => slot.(memory := None)
    case DropFinishedRow => if slot.row.Some? && !IsActive(slot.row.value.state) then slot.(row := None) else slot
    case DropFinishedSnapshot =>
      if slot.memory.Some? && !IsActive(slot.memory.value.state) then slot.(memory := None) else slot
  }

  class TransferCore {
    var transfers: map<Id, Snapshot>
    var rows: map<Id, Snapshot>
    var lastSaved: map<Id, int>

    /** Whether the database takes every write. */
    const dependable: bool

    /** The transfers whose row may be out of date: a save failed, or another thread is half-way through an operation
        that writes row and snapshot apart. */
    ghost var stale: set<Id>

    ghost function SlotOf(id: Id): Slot
      reads this
    {
      Slot(if id in transfers then Some(transfers[id]) else None, if id in rows then Some(rows[id]) else None)
    }

    ghost function Current(): View
      reads this
    {
      View(transfers, rows, stale)
    }

    ghost predicate Valid()
      reads this
    {
      && (forall id | id in transfers && id !in stale :: id in rows && RowAgrees(transfers[id], rows[id]))
      && (forall id | id in transfers :: transfers[id].completedBytes <= transfers[id].totalBytes <= U64_MAX)
      && (forall id | id in rows :: rows[id].completedBytes <= rows[id].totalBytes <= U64_MAX)
    }

    /** `save_transfer`: the whole row is replaced, or nothing is. */
    method Save(id: Id, s: Snapshot) returns (saved: bool)
      modifies this`rows
      ensures rows == if saved then old(rows)[id := s] else old(rows)
      ensures dependable ==> saved
    {
      saved := *;
      saved := saved || dependable;
      if saved {
        rows := rows[id := s];
      }
    }

    /** Writes a snapshot through: memory first, then the row. */
    method Put(id: Id, s: Snapshot) returns (r: Result<(), CoreError>)
      requires Valid() && id in transfers && s.completedBytes <= s.totalBytes <= U64_MAX
      modifies this`transfers, this`rows, this`stale
      ensures Valid()
      ensures SlotOf(id) == Touched(old(SlotOf(id)), if r.Ok? then Store(s) else Keep(s))
      ensures transfers == old(transfers)[id := s]
      ensures r.Ok? ==> rows == old(rows)[id := s] && stale == old(stale) - {id}
      ensures r.Err? ==> !dependable && r.error == Repository && rows == old(rows) && stale == old(stale) + {id}
    {
      transfers := transfers[id := s];
      var saved := Save(id, s);
      stale := if saved then stale - {id} else stale + {id};
      return if saved then Ok(()) else Err(Repository);
    }

    // ----- new transfers -----

    /** The first half of a new transfer: its row, written without the state lock. */
    method SaveNew(id: Id, s: Snapshot) returns (saved: bool)
      requires Valid() && s.completedBytes <= s.totalBytes <= U64_MAX
      modifies this`rows, this`stale
      ensures Valid()
      ensures saved ==> rows == old(rows)[id := s] && SlotOf(id) == Touched(old(SlotOf(id)), SaveRow(s))
      ensures !saved ==> !dependable && rows == old(rows)
      ensures stale == if saved then old(stale) + {id} else old(stale)
    {
      saved := Save(id, s);
      if saved {
        stale := stale + {id};
      }
    }

    /** The second half: the snapshot, inserted under the lock. Whether the row agrees depends on what became of it in
        the meantime. */
    method InsertNew(id: Id, s: Snapshot)
      requires Valid() && s.completedBytes <= s.totalBytes <= U64_MAX
      modifies this`transfers, this`stale
      ensures Valid()
      ensures transfers == old(transfers)[id := s] && SlotOf(id) == Touched(old(SlotOf(id)), Insert(s))
      ensures stale == if Agrees(SlotOf(id)) then old(stale) - {id} else old(stale) + {id}
    {
      transfers := transfers[id := s];
      stale := if id in rows && RowAgrees(s, rows[id]) then stale - {id} else stale + {id};
    }

    /** `send`, with nobody else at work on the id: the row is written first; a failure before the insert leaves only
        the row. */
    method Send(id: Id, totalBytes: nat, itemsSaved: bool) returns (r: Result<(), CoreError>)
      requires Valid() && id !in transfers && totalBytes <= U64_MAX
      modifies this`transfers, this`rows, this`stale
      ensures Valid()
      ensures r.Ok? ==>
                && transfers == old(transfers)[id := Snapshot(Preparing, false, totalBytes, 0, None)]
                && rows == old(rows)[id := Snapshot(Preparing, false, totalBytes, 0, None)] && id !in stale
      ensures r.Err? ==> transfers == old(transfers)
      ensures r.Err? && r.error.Repository? ==> rows == old(rows) && !dependable
      ensures r.Err? && !r.error.Repository? ==>
                !itemsSaved && rows == old(rows)[id := Snapshot(Preparing, false, totalBytes, 0, None)]
      ensures r.Ok? ==> itemsSaved
      ensures stale - {id} == old(stale) - {id}
    {
      var s := Snapshot(Preparing, false, totalBytes, 0, None);
      var saved := SaveNew(id, s);
      if !saved {
        return Err(Repository);
      }
      if !itemsSaved {
        return Err(Job);
      }
      InsertNew(id, s);
      return Ok(());
    }

    /** `add_incoming_transfer`, with nobody else at work on the id: the row first, then memory; a snapshot under the
        same id is replaced. */
    method AddIncoming(id: Id, trusted: bool, totalBytes: nat) returns (r: Result<(), CoreError>)
      requires Valid() && totalBytes <= U64_MAX
      modifies this`transfers, this`rows, this`stale
      ensures Valid()
      ensures r.Err? ==> !dependable && transfers == old(transfers) && rows == old(rows) && stale == old(stale)
      ensures r.Ok? ==> id in transfers && transfers == old(transfers)[id := transfers[id]]
      ensures r.Ok? ==> id in rows && rows == old(rows)[id := transfers[id]] && stale == old(stale) - {id}
      ensures r.Ok? ==> transfers[id] == Snapshot(transfers[id].state, true, totalBytes, 0, None)
                        && forall before :: transfers[id].state == Mutated(before, NewOffer(trusted))
    {
      var s := Snapshot(if trusted then WaitingForAcceptance else Pairing, true, totalBytes, 0, None);
      var saved := SaveNew(id, s);
      if !saved {
        return Err(Repository);
      }
      InsertNew(id, s);
      return Ok(());
    }

    // ----- changes of state -----

    /** `transition_transfer`. */
    method TransitionTransfer(id: Id, next: TransferState) returns (r: Result<(), CoreError>)
      requires Valid()
      modifies this`transfers, this`rows, this`stale
      ensures Valid()
      ensures id !in old(transfers) ==>
                r == Err(UnknownTransfer(id)) && transfers == old(transfers) && rows == old(rows)
      ensures id in old(transfers) ==> Changed(old(Current()), Current(), id, Transition(next), r)
      ensures id in old(transfers) && !CanTransition(old(transfers)[id].state, next) ==> r.Err? && r.error.Lifecycle?
      ensures id in old(transfers) && CanTransition(old(transfers)[id].state, next) && dependable ==> r.Ok?
      ensures id in old(transfers) && CanTransition(old(transfers)[id].state, next) ==> transfers[id].error == None
    {
      if id !in transfers {
        return Err(UnknownTransfer(id));
      }
      var s := transfers[id];
      if !CanTransition(s.state, next) {
        return Err(CoreError.Lifecycle(InvalidTransition(s.state, next)));
      }
      r := Put(id, WithState(s, next, None));
    }

    /** `fail_transfer`, `interrupt_transfer` and `cancel_transfer_with_error`: they bypass the transition table, stop
        at the terminal states, and save either way. */
    method EndWith(id: Id, m: Mutation, message: string) returns (r: Result<(), CoreError>)
      requires Valid() && (m.Fail? || m.Interrupt? || m.CancelWithError?)
      modifies this`transfers, this`rows, this`stale
      ensures Valid()
      ensures id !in old(transfers) ==>
                r == Err(UnknownTransfer(id)) && transfers == old(transfers) && rows == old(rows)
      ensures id in old(transfers) ==> Changed(old(Current()), Current(), id, m, r)
      ensures id in old(transfers) && r.Err? ==> !dependable && r.error.Repository?
      ensures id in old(transfers) ==>
                transfers[id].error
                == if IsTerminal(old(transfers)[id].state) then old(transfers)[id].error else Some(message)
    {
      if id !in transfers {
        return Err(UnknownTransfer(id));
      }
      var s := transfers[id];
      var next := if IsTerminal(s.state) then s else WithState(s, Mutated(s.state, m), Some(message));
      r := Put(id, next);
    }

    /** `pause_from_remote`, `resume_from_remote` and `cancel_from_remote`: an unknown id is fine, and a state they
        leave alone is not saved. */
    method FromRemote(id: Id, m: Mutation, reason: string) returns (r: Result<(), CoreError>)
      requires Valid() && (m.PauseFromRemote? || m.ResumeFromRemote? || m.CancelFromRemote?)
      modifies this`transfers, this`rows, this`stale
      ensures Valid()
      ensures id !in old(transfers) ==> r.Ok? && transfers == old(transfers) && rows == old(rows)
      ensures id in old(transfers)
              && (if m.ResumeFromRemote? then !old(transfers)[id].state.Paused?
                  else old(transfers)[id].state.Completed? || old(transfers)[id].state.Cancelled?) ==>
                r.Ok? && transfers == old(transfers) && rows == old(rows) && stale == old(stale)
                && transfers[id].state == Mutated(old(transfers)[id].state, m)
      ensures id in old(transfers) && Touches(old(transfers)[id].state, m) ==>
                && Changed(old(Current()), Current(), id, m, r)
                && (r.Err? ==> !dependable && r.error.Repository?)
                && transfers[id].error == if m.CancelFromRemote? then Some(reason) else old(transfers)[id].error
    {
      if id !in transfers || !Touches(transfers[id].state, m) {
        return Ok(());
      }
      var s := transfers[id];
      r := Put(id, WithState(s, Mutated(s.state, m), if m.CancelFromRemote? then Some(reason) else s.error));
    }

    /** `command_transfer`, after the job of a retry has been restored. */
    method CommandTransfer(id: Id, command: TransferCommand, jobRestored: bool) returns (r: Result<(), CoreError>)
      requires Valid()
      modifies this`transfers, this`rows, this`stale
      ensures Valid()
      ensures command.Retry? && !jobRestored ==> r == Err(Job) && transfers == old(transfers) && rows == old(rows)
      ensures (command.Retry? ==> jobRestored) && id in old(transfers) ==>
                Changed(old(Current()), Current(), id, Command(command), r)
      ensures (command.Retry? ==> jobRestored) && id in old(transfers) ==>
                ((r.Err? && r.error.Lifecycle?) <==> !Accepts(old(transfers)[id].state, command))
      ensures (command.Retry? ==> jobRestored) && id in old(transfers) && Accepts(old(transfers)[id].state, command) ==>
                transfers[id].error == if command.Cancel? then Some("cancelled") else old(transfers)[id].error
      ensures (command.Retry? ==> jobRestored) && id in old(transfers) && Accepts(old(transfers)[id].state, command)
              && dependable ==>
                r.Ok?
      ensures (command.Retry? ==> jobRestored) && id !in old(transfers) ==>
                r == Err(UnknownTransfer(id)) && transfers == old(transfers) && rows == old(rows)
    {
      if command.Retry? && !jobRestored {
        return Err(Job);
      }
      if id !in transfers {
        return Err(UnknownTransfer(id));
      }
      var s := transfers[id];
      if !CanTransition(s.state, Target(command)) {
        return Err(CoreError.Lifecycle(InvalidTransition(s.state, Target(command))));
      }
      r := Put(id, WithState(s, Target(command), if command.Cancel? then Some("cancelled") else s.error));
    }

    // ----- progress -----

    /** `update_completed_bytes`: memory always advances; the row is written when the total is reached, at the first
        progress, or when the last write is long enough ago. */
    method UpdateCompletedBytes(id: Id, added: nat, now: int) returns (r: Result<(), CoreError>)
      requires Valid()
      modifies this
      ensures Valid()
      ensures id !in old(transfers) ==>
                r == Err(UnknownTransfer(id)) && transfers == old(transfers) && rows == old(rows)
      ensures id in old(transfers) ==>
                var s := old(transfers)[id];
                transfers == old(transfers)[id :=
                    s.(completedBytes := AddProgress(s.completedBytes, added, s.totalBytes))]
      ensures id in old(transfers) ==>
                var s, s' := old(transfers)[id], transfers[id];
                var elapsed := if id in old(lastSaved) then now - old(lastSaved)[id] else 0;
                var due := SaveDue(s.completedBytes, s'.completedBytes, s.totalBytes, elapsed);
                && (r.Ok? ==> rows == (if due then old(rows)[id := s'] else old(rows)))
                && (r.Ok? ==> stale == if due then old(stale) - {id} else old(stale))
                && (r.Err? ==> due && r.error == Repository && rows == old(rows) && stale == old(stale) + {id})
      ensures id in old(transfers) && r.Err? ==> !dependable
      ensures id in old(transfers) ==> id in lastSaved && lastSaved == old(lastSaved)[id := lastSaved[id]]
      ensures id in old(transfers) && r.Ok? ==>
                (id in rows && rows[id] == transfers[id]) || (rows == old(rows) && now - lastSaved[id] < 500)
      ensures id in old(transfers) && r.Ok? && transfers[id].completedBytes > 0
              && (old(transfers)[id].completedBytes == 0
                || transfers[id].completedBytes == transfers[id].totalBytes) ==>
                id in rows && rows[id] == transfers[id]
      ensures id in old(transfers) && rows != old(rows) ==>
                && lastSaved[id] == now
                && (old(transfers)[id].completedBytes > 0 && transfers[id].completedBytes < transfers[id].totalBytes ==>
                      id in old(lastSaved) && now - old(lastSaved)[id] >= 500)
    {
      if id !in transfers {
        return Err(UnknownTransfer(id));
      }
      var s := transfers[id];
      var completed := AddProgress(s.completedBytes, added, s.totalBytes);
      if id !in lastSaved {
        lastSaved := lastSaved[id := now];
      }
      var due := SaveDue(s.completedBytes, completed, s.totalBytes, now - lastSaved[id]);
      if due {
        lastSaved := lastSaved[id := now];
        r := Put(id, s.(completedBytes := completed));
      } else {
        transfers := transfers[id := s.(completedBytes := completed)];
        r := Ok(());
      }
    }

    /** `set_completed_bytes`: clamped and always saved. */
    method SetCompletedBytes(id: Id, completed: nat, now: int) returns (r: Result<(), CoreError>)
      requires Valid()
      modifies this
      ensures Valid()
      ensures id !in old(transfers) ==>
                r == Err(UnknownTransfer(id)) && transfers == old(transfers) && rows == old(rows)
      ensures id in old(transfers) ==>
                && transfers == old(transfers)[id := old(transfers)[id].(
                     completedBytes := Min(completed, old(transfers)[id].totalBytes))]
                && (r.Ok? ==> rows == old(rows)[id := transfers[id]] && stale == old(stale) - {id})
                && (r.Err? ==> r.error == Repository && rows == old(rows) && stale == old(stale) + {id})
      ensures id in old(transfers) && r.Err? ==> !dependable
      ensures id in old(transfers) && r.Ok? ==> lastSaved == old(lastSaved)[id := now]
    {
      if id !in transfers {
        return Err(UnknownTransfer(id));
      }
      var s := transfers[id];
      r := Put(id, s.(completedBytes := Min(completed, s.totalBytes)));
      if r.Ok? {
        lastSaved := lastSaved[id := now];
      }
    }

    // ----- history -----

    /** The first half of `clear_history`: finished rows go. */
    method ClearRows()
      requires Valid()
      modifies this`rows, this`stale
      ensures Valid()
      ensures rows == map id | id in old(rows) && IsActive(old(rows)[id].state) :: old(rows)[id]
      ensures forall id :: SlotOf(id) == Touched(old(SlotOf(id)), DropFinishedRow)
      ensures stale == old(stale) + (old(rows).Keys - rows.Keys)
    {
      stale := stale + (set id | id in rows && !IsActive(rows[id].state));
      rows := map id | id in rows && IsActive(rows[id].state) :: rows[id];
    }

    /** The second half: finished snapshots go, by their own state at that moment. */
    method ClearSnapshots()
      requires Valid()
      modifies this`transfers
      ensures Valid()
      ensures transfers == map id | id in old(transfers) && IsActive(old(transfers)[id].state) :: old(transfers)[id]
      ensures forall id :: SlotOf(id) == Touched(old(SlotOf(id)), DropFinishedSnapshot)
    {
      transfers := map id | id in transfers && IsActive(transfers[id].state) :: transfers[id];
    }

    /** `clear_history`, with nobody else at work. */
    method ClearHistory()
      requires Valid()
      modifies this`transfers, this`rows, this`stale
      ensures Valid()
      ensures transfers == map id | id in old(transfers) && IsActive(old(transfers)[id].state) :: old(transfers)[id]
      ensures rows == map id | id in old(rows) && IsActive(old(rows)[id].state) :: old(rows)[id]
      ensures forall id | id in old(transfers) && id !in old(stale) :: id in transfers <==> id in rows
      ensures forall id | id in transfers && id !in old(stale) :: id !in stale
    {
      ClearRows();
      ClearSnapshots();
    }

    /** The first half of `delete_history_transfer`. */
    method DeleteRow(id: Id) returns (deleted: bool)
      requires Valid()
      modifies this`rows, this`stale
      ensures Valid()
      ensures deleted <==> id in old(rows)
      ensures rows == old(rows) - {id} && SlotOf(id) == Touched(old(SlotOf(id)), DropRow)
      ensures stale == old(stale) + {id}
    {
      deleted := id in rows;
      rows := rows - {id};
      stale := stale + {id};
    }

    /** The second half, taken only if there was a row. */
    method RemoveSnapshot(id: Id)
      requires Valid()
      modifies this`transfers
      ensures Valid()
      ensures transfers == old(transfers) - {id} && SlotOf(id) == Touched(old(SlotOf(id)), DropSnapshot)
    {
      transfers := transfers - {id};
    }

    /** `delete_history_transfer`, with nobody else at work on the id: the snapshot goes only if there was a row. */
    method DeleteHistory(id: Id) returns (deleted: bool)
      requires Valid()
      modifies this`transfers, this`rows, this`stale
      ensures Valid()
      ensures deleted <==> id in old(rows)
      ensures rows == old(rows) - {id} && transfers == if deleted then old(transfers) - {id} else old(transfers)
      ensures id in old(transfers) && id !in old(stale) ==> id !in transfers
      ensures stale == old(stale) + {id}
    {
      deleted := DeleteRow(id);
      if deleted {
        RemoveSnapshot(id);
      }
    }

    // ----- stopping and starting -----

    /** `shutdown`: every snapshot is written once more, failures ignored. */
    method Shutdown()
      requires Valid()
      modifies this`rows, this`stale
      ensures Valid() && stale <= old(stale) + transfers.Keys
      ensures forall id | id in transfers && id !in stale :: id in rows && rows[id] == transfers[id]
      ensures forall id | id in old(rows) && id !in transfers :: id in rows && rows[id] == old(rows)[id]
      ensures dependable ==> forall id | id in transfers :: id in rows && rows[id] == transfers[id]
    {
      var left := transfers.Keys;
      while left != {}
        invariant Valid() && left <= transfers.Keys && stale <= old(stale) + transfers.Keys
        invariant forall id | id in transfers && id !in left && id !in stale :: id in rows && rows[id] == transfers[id]
        invariant forall id | id in old(rows) && id !in transfers :: id in rows && rows[id] == old(rows)[id]
        invariant dependable ==> forall id | id in transfers && id !in left :: id in rows && rows[id] == transfers[id]
        decreases |left|
      {
        var id :| id in left;
        var saved := Save(id, transfers[id]);
        stale := if saved then stale - {id} else stale + {id};
        left := left - {id};
      }
    }

    constructor (found: map<Id, Snapshot>, dependable: bool)
      ensures transfers == rows == found && lastSaved == map[] && stale == {} && this.dependable == dependable
    {
      transfers, rows, lastSaved, stale := found, found, map[], {};
      this.dependable := dependable;
    }

    /** `initialize` over the rows found: unfinished ones become interrupted, one save at a time. A save that fails
        ends the start; what it leaves behind leads to the same result next time. */
    static method Initialize(found: map<Id, Snapshot>, dependable: bool)
      returns (r: Result<TransferCore, CoreError>, left: map<Id, Snapshot>)
      requires forall id | id in found :: found[id].completedBytes <= found[id].totalBytes <= U64_MAX
      ensures RestoredAll(left) == RestoredAll(found)
      ensures r.Err? ==> !dependable && r.error.Repository?
      ensures r.Ok? ==> fresh(r.value) && r.value.Valid() && r.value.stale == {}
      ensures r.Ok? ==> r.value.transfers == r.value.rows == left == RestoredAll(found)
    {
      left := found;
      var todo := found.Keys;
      while todo != {}
        invariant todo <= found.Keys == left.Keys
        invariant forall id | id in found :: left[id] == if id in todo then found[id] else Restored(found[id])
        decreases |todo|
      {
        var id :| id in todo;
        if IsActive(left[id].state) {
          var saved: bool := *;
          if !saved && !dependable {
            return Err(Repository), left;
          }
          left := left[id := Restored(left[id])];
        }
        todo := todo - {id};
      }
      var core := new TransferCore(left, dependable);
      return Ok(core), left;
    }
  }

  function RestoredAll(rows: map<Id, Snapshot>): map<Id, Snapshot> {
    map id | id in rows :: Restored(rows[id])
  }

  /** Whether a remote action changes a transfer in this state. */
  predicate Touches(s: TransferState, m: Mutation) {
    if m.ResumeFromRemote? then s.Paused? else !IsTerminal(s)
  }

  /** A restart yields exactly the states in memory, unfinished ones interrupted, for every transfer whose last save
      succeeded; at most the progress, and all of it for a transfer that had reached its total. */
  method RestartKeeps(core: TransferCore) returns (r: Result<TransferCore, CoreError>)
    requires core.Valid()
    ensures core.dependable ==> r.Ok?
    ensures r.Ok? ==> fresh(r.value) && r.value.Valid() && r.value.transfers.Keys == core.rows.Keys
    ensures r.Ok? ==> forall id | id in core.rows ::
              var row, found := core.rows[id], r.value.transfers[id];
              && found == WithState(row, found.state, found.error)
              && (if row.state.Completed? || row.state.Failed? || row.state.Cancelled? then found == row
                  else found.state.Interrupted? && found.error == Some("restart"))
    ensures r.Ok? ==> forall id | id in core.transfers && id !in core.stale ::
              && id in r.value.transfers
              && r.value.transfers[id].state == Mutated(core.transfers[id].state, Restart)
              && r.value.transfers[id].incoming == core.transfers[id].incoming
              && r.value.transfers[id].totalBytes == core.transfers[id].totalBytes
              && r.value.transfers[id].completedBytes <= core.transfers[id].completedBytes
              && (core.transfers[id].completedBytes == core.transfers[id].totalBytes ==>
                    r.value.transfers[id].completedBytes == core.transfers[id].completedBytes)
  {
    var left;
    r, left := TransferCore.Initialize(core.rows, core.dependable);
  }
}
