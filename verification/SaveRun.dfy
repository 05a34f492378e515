/** Saving a run record to two stores: a database row and a results file, with failure injection. */
module SaveRun {
  import opened Wrappers

  /**
   * The operations of a save that may raise, in the order in which the code reaches them. The rollback and the
   * directory sync of the recovery are not among them: when they raise, the save is raising already, an unfinished
   * transaction ends with its connection, and neither store changes.
   */
  datatype Op =
    | StageTemporary | RestrictStaged | OpenStaged | WriteStaged
    | Connect | BeginImmediate | WriteRows
    | CreateBackup | CloseBackup | UnlinkBackup | MoveResults
    | PublishStaged | SyncDirectory | Commit
    | CloseConnection | RemoveBackup
    | RestoreResults | UnpublishResults
    | CloseDescriptor | RemoveStaged | RemoveLeftover | SecureDatabase

  type Record = string

  datatype File = Empty | Holds(record: Record)

  /** What a reader of the two stores sees. */
  datatype Stored = Stored(results: Option<File>, row: Option<Record>)

  /** Some operation before either store is touched raises. */
  ghost predicate FailsEarly(fails: set<Op>) {
    || StageTemporary in fails || RestrictStaged in fails || OpenStaged in fails || WriteStaged in fails
    || Connect in fails || BeginImmediate in fails || WriteRows in fails
  }

  ghost function AllNew(record: Record): Stored {
    Stored(Some(Holds(record)), Some(record))
  }

  /** The stores after a save in which exactly the operations in `fails` raise, each with no effect. */
  ghost function Saved(before: Stored, record: Record, fails: set<Op>): (after: Stored) {
    if FailsEarly(fails) then before
    else if before.results.Some? then
      if CreateBackup in fails || CloseBackup in fails then before
      else if UnlinkBackup in fails then
        if RestoreResults in fails then before else before.(results := Some(Empty))
      else if MoveResults in fails then before
      else if PublishStaged in fails then
        if RestoreResults in fails then before.(results := None) else before
      else if SyncDirectory in fails || Commit in fails then
        if RestoreResults in fails then before.(results := Some(Holds(record))) else before
      else AllNew(record)
    else if PublishStaged in fails then before
    else if SyncDirectory in fails || Commit in fails then
      if UnpublishResults in fails then before.(results := Some(Holds(record))) else before
    else AllNew(record)
  }

  /** Results and row tell the same story. */
  ghost predicate Agree(s: Stored) {
    s.results == (if s.row.Some? then Some(Holds(s.row.value)) else None)
  }

  /** The failures after which the two stores tell different stories. */
  ghost predicate Tears(hadResults: bool, fails: set<Op>) {
    && !FailsEarly(fails)
    && if hadResults then
         && CreateBackup !in fails && CloseBackup !in fails
         && (if UnlinkBackup in fails then RestoreResults !in fails
             else MoveResults !in fails && RestoreResults in fails
                  && (PublishStaged in fails || SyncDirectory in fails || Commit in fails))
       else
         PublishStaged !in fails && UnpublishResults in fails && (SyncDirectory in fails || Commit in fails)
  }

  /** A save is all or nothing exactly when no tearing failure happens. */
  lemma AtomicUnlessTorn(before: Stored, record: Record, fails: set<Op>)
    requires Agree(before) && before.row != Some(record)
    ensures (Saved(before, record, fails) == before || Saved(before, record, fails) == AllNew(record))
      <==> !Tears(before.results.Some?, fails)
  {
  }

  /** Main result: one failure leaves both stores old or both new, unless the fresh backup name cannot be unlinked. */
  lemma OneFailureIsAtomic(before: Stored, record: Record, op: Op)
    requires Agree(before) && before.row != Some(record)
    ensures (Saved(before, record, {op}) == before || Saved(before, record, {op}) == AllNew(record))
      <==> !(op == UnlinkBackup && before.results.Some?)
  {
    AtomicUnlessTorn(before, record, {op});
  }

  /** The exception: recovery then restores the empty backup over the results. */
  lemma UnlinkFailureEmptiesResults(before: Stored, record: Record)
    requires before.results.Some?
    ensures Saved(before, record, {UnlinkBackup}) == Stored(Some(Empty), before.row)
  {
  }

  /** A save that reaches its commit. */
  ghost predicate Commits(hadResults: bool, fails: set<Op>) {
    && !FailsEarly(fails)
    && (hadResults ==>
         CreateBackup !in fails && CloseBackup !in fails && UnlinkBackup !in fails && MoveResults !in fails)
    && PublishStaged !in fails && SyncDirectory !in fails && Commit !in fails
  }

  /** A save that is not torn writes both stores if it commits, and neither otherwise. */
  lemma CommittedOrKept(before: Stored, record: Record, fails: set<Op>)
    requires Agree(before) && !Tears(before.results.Some?, fails)
    ensures Saved(before, record, fails) == if Commits(before.results.Some?, fails) then AllNew(record) else before
  {
  }

  datatype Attempt = Attempt(record: Record, fails: set<Op>)

  ghost function SavedAll(before: Stored, attempts: seq<Attempt>): Stored {
    if attempts == [] then before
    else
      var last := attempts[|attempts| - 1];
      Saved(SavedAll(before, attempts[..|attempts| - 1]), last.record, last.fails)
  }

  /** No attempt of the run tears. */
  ghost predicate NeverTears(before: Stored, attempts: seq<Attempt>) {
    forall i | 0 <= i < |attempts| :: !Tears(SavedAll(before, attempts[..i]).results.Some?, attempts[i].fails)
  }

  /** Attempt `i` of the run reaches its commit. */
  ghost predicate CommitsAt(before: Stored, attempts: seq<Attempt>, i: nat)
    requires i < |attempts|
  {
    Commits(SavedAll(before, attempts[..i]).results.Some?, attempts[i].fails)
  }

  lemma EarlierCommits(before: Stored, attempts: seq<Attempt>, i: nat)
    requires i < |attempts| - 1
    ensures CommitsAt(before, attempts[..|attempts| - 1], i) <==> CommitsAt(before, attempts, i)
  {
    assert attempts[..|attempts| - 1][..i] == attempts[..i];
  }

  lemma EarlierNeverTears(before: Stored, attempts: seq<Attempt>)
    requires attempts != [] && NeverTears(before, attempts)
    ensures NeverTears(before, attempts[..|attempts| - 1])
  {
    var init := attempts[..|attempts| - 1];
    assert forall i | 0 <= i < |init| :: init[..i] == attempts[..i];
  }

  /** Over any run of saves the stores agree, and show the last committed record or what was there before. */
  lemma {:induction false} RunOfSaves(before: Stored, attempts: seq<Attempt>) returns (last: int)
    requires Agree(before) && NeverTears(before, attempts)
    ensures Agree(SavedAll(before, attempts))
    ensures -1 <= last < |attempts|
    ensures SavedAll(before, attempts) == if last == -1 then before else AllNew(attempts[last].record)
    ensures forall i | 0 <= i < |attempts| ::
      (i > last ==> !CommitsAt(before, attempts, i)) && (i == last ==> CommitsAt(before, attempts, i))
  {
    hide Saved, Tears, Commits;
    if attempts == [] {
      last := -1;
    } else {
      var n := |attempts| - 1;
      var init := attempts[..n];
      EarlierNeverTears(before, attempts);
      last := RunOfSaves(before, init);
      assert !Tears(SavedAll(before, init).results.Some?, attempts[n].fails);
      CommittedOrKept(SavedAll(before, init), attempts[n].record, attempts[n].fails);
      forall i | 0 <= i < n ensures CommitsAt(before, init, i) <==> CommitsAt(before, attempts, i) {
        EarlierCommits(before, attempts, i);
      }
      hide CommitsAt, NeverTears;
      if CommitsAt(before, attempts, n) {
        last := n;
      }
    }
  }

  class RunStore {
    var results: Option<File>
    var row: Option<Record>
    var staged: Option<File>
    var backup: Option<File>
    var uncommitted: Option<Record>

    ghost function Stores(): Stored
      reads this
    {
      Stored(results, row)
    }

    /** Save a record; the labelled blocks are the two `try` blocks, and leaving one early is raising in it. */
    method Save(record: Record, fails: set<Op>) returns (raised: bool)
      modifies this
      ensures Stores() == Saved(old(Stores()), record, fails)
      ensures raised <==>
        !Commits(old(results).Some?, fails) || CloseConnection in fails || SecureDatabase in fails
      ensures !raised ==> Stores() == AllNew(record) && staged == None
      ensures StageTemporary !in fails && CloseDescriptor !in fails && RemoveStaged !in fails ==> staged == None
      ensures !Commits(old(results).Some?, fails) && UnlinkBackup !in fails && old(results).Some? ==>
        results == old(results) || backup == old(results)
      ensures fails !! {RestoreResults, RemoveBackup, CloseDescriptor, RemoveStaged, RemoveLeftover} ==> backup == None
    {
      raised := true;
      backup, uncommitted := None, None; // the temporary names are new
      if StageTemporary in fails {
        return;
      }
      staged := Some(Empty);
      var hasBackup, published, committed, descriptorOpen := false, false, false, true;
      label attempt: {
        if RestrictStaged in fails { break attempt; }
        if OpenStaged in fails { break attempt; }
        descriptorOpen := false;
        if WriteStaged in fails { break attempt; }
        staged := Some(Holds(record));
        if Connect in fails { break attempt; }
        label transaction: {
          if BeginImmediate in fails { break transaction; }
          if WriteRows in fails { break transaction; }
          uncommitted := Some(record);
          if results.Some? {
            if CreateBackup in fails { break transaction; }
            if CloseBackup in fails { break transaction; }
            backup, hasBackup := Some(Empty), true;
            if UnlinkBackup in fails { break transaction; }
            backup := None;
            if MoveResults in fails { break transaction; }
            backup, results := results, None;
          }
          if PublishStaged in fails { break transaction; }
          results, staged := staged, None;
          published := true;
          if SyncDirectory in fails { break transaction; }
          if Commit in fails { break transaction; }
          row := uncommitted;
          committed := true;
        }
        uncommitted := None; // rolled back, or discarded when the connection closes
        if !committed || CloseConnection in fails { break attempt; }
        if hasBackup {
          if RemoveBackup !in fails {
            backup := None;
          }
          hasBackup := false;
        }
        raised := false;
      }
      if raised && !committed {
        if hasBackup && backup.Some? {
          if RestoreResults !in fails {
            results, backup, hasBackup := backup, None, false;
          }
        } else if published {
          if UnpublishResults !in fails {
            results := None;
          }
        }
      }
      raised := CleanUp(raised, descriptorOpen, committed && hasBackup, fails);
      if !raised && SecureDatabase in fails {
        raised := true;
      }
    }

    /** The `finally` block: close the descriptor if it is still open and remove the temporary files. */
    method CleanUp(raising: bool, descriptorOpen: bool, removeBackup: bool, fails: set<Op>) returns (raised: bool)
      modifies this
      ensures Stores() == old(Stores())
      ensures raising ==> raised
      ensures raised <==>
        || raising || (descriptorOpen && CloseDescriptor in fails) || (old(staged).Some? && RemoveStaged in fails)
        || (removeBackup && old(backup).Some? && RemoveLeftover in fails)
      ensures !raised || fails !! {CloseDescriptor, RemoveStaged} ==> staged == None
      ensures backup == old(backup) || (removeBackup && backup == None)
      ensures removeBackup && fails !! {CloseDescriptor, RemoveStaged, RemoveLeftover} ==> backup == None
    {
      raised := raising;
      if descriptorOpen && CloseDescriptor in fails {
        return true;
      }
      if staged.Some? && RemoveStaged in fails {
        return true;
      }
      staged := None;
      if removeBackup && backup.Some? {
        if RemoveLeftover in fails {
          return true;
        }
        backup := None;
      }
    }
  }
}
