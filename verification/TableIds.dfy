/** Table records and their shard IDs: nodes create, restore and delete tables by reading the
    metadata store and proposing compare-and-set writes that may be applied at any later time,
    repeatedly, or never. Table names contain no slash, so keys of different kinds differ. */
module TableIds {
  import opened MetaStore

  const RANGE_START: nat := 10000

  datatype Table = Table(name: string, clusterId: nat, recoverId: nat)

  datatype Key = Sequence | TableKey(name: string)
  datatype Value = Count(n: nat) | Rec(table: Table)

  type MetaMap = Entries<Key, Value>

  /** A running operation of some node; `no` tells operations on the same table apart. */
  datatype Task = Create(no: nat, name: string) | Restore(no: nat, name: string) | Delete(no: nat, name: string)

  datatype Proposal = Proposal(task: Task, change: Change<Key, Value>)

  /** What an operation read about its table when it started. */
  datatype Start = Start(table: Table, ver: nat)

  /** The store with its last Raft index, the operations that have started, everything that
      was proposed, and the proposals whose success was reported. */
  datatype System = System(
    store: MetaMap, index: nat, started: map<Task, Start>, pending: set<Proposal>, acked: set<Proposal>)

  datatype Step =
    | Elsewhere(index: nat)
    | Begin(task: Task)
    | TakeId(task: Task)
    | Write(task: Task, id: nat)
    | Finish(task: Task, id: nat)
    | Apply(p: Proposal, index: nat)

  const NO_TABLE := Table("", 0, 0)

  /** `getTableVersion`: a missing table reads as an empty record of version zero. */
  function ReadTable(store: MetaMap, name: string): (r: Start)
  {
    if TableKey(name) in store && store[TableKey(name)].value.Rec? then
      Start(store[TableKey(name)].value.table, store[TableKey(name)].ver)
    else Start(NO_TABLE, 0)
  }

  /** The last ID given out and the version it was stored under. */
  function LastId(store: MetaMap): (n: nat)
  {
    if Sequence in store && store[Sequence].value.Count? then store[Sequence].value.n else RANGE_START
  }

  function IdVersion(store: MetaMap): (v: nat)
  {
    if Sequence in store then store[Sequence].ver else 0
  }

  /** `incAndGetIDSeq` proposes the successor of the number it read. */
  function IdProposal(store: MetaMap, task: Task): (p: Proposal)
  {
    Proposal(task, SetTo(Sequence, Count(LastId(store) + 1), IdVersion(store)))
  }

  predicate IsGrant(p: Proposal)
  {
    p.change.SetTo? && p.change.key == Sequence && p.change.value.Count?
  }

  /** The operation got this ID without error. */
  ghost predicate Granted(s: System, task: Task, id: nat)
  {
    exists p :: p in s.acked && IsGrant(p) && p.task == task && p.change.value.n == id
  }

  /** The first record an operation writes: a new table under its ID, or the old record with
      the ID to recover into. */
  function FirstRecord(task: Task, start: Start, id: nat): (p: Proposal)
    requires !task.Delete?
  {
    if task.Create? then Proposal(task, SetTo(TableKey(task.name), Rec(Table(task.name, id, 0)), 0))
    else Proposal(task, SetTo(TableKey(task.name), Rec(Table(task.name, start.table.clusterId, id)), start.ver))
  }

  /** The second write of a restore: the recovered shard becomes the table. */
  function LastRecord(task: Task, store: MetaMap, id: nat): (p: Proposal)
  {
    var r := ReadTable(store, task.name);
    Proposal(task, SetTo(TableKey(task.name), Rec(r.table.(clusterId := id, recoverId := 0)), r.ver))
  }

  ghost predicate Next(s: System, step: Step, s': System)
  {
    match step
    case Elsewhere(index) => s.index < index && s' == s.(index := index)
    case Begin(task) =>
      && task !in s.started && (task.Create? ==> TableKey(task.name) !in s.store)
      && (task.Delete? ==> TableKey(task.name) in s.store)
      && var r := ReadTable(s.store, task.name);
      && var drops := if task.Delete? then {Proposal(task, Drop(TableKey(task.name), r.ver))} else {};
      && s' == s.(started := s.started[task := r], pending := s.pending + drops)
    case TakeId(task) =>
      && task in s.started && !task.Delete?
      && s' == s.(pending := s.pending + {IdProposal(s.store, task)})
    case Write(task, id) =>
      && task in s.started && !task.Delete? && Granted(s, task, id)
      && s' == s.(pending := s.pending + {FirstRecord(task, s.started[task], id)})
    case Finish(task, id) =>
      && task in s.started && task.Restore? && Granted(s, task, id) && TableKey(task.name) in s.store
      && FirstRecord(task, s.started[task], id) in s.acked
      && s' == s.(pending := s.pending + {LastRecord(task, s.store, id)})
    case Apply(p, index) =>
      && p in s.pending && s.index < index
      && s' == s.(store := Commit(s.store, index, p.change), index := index,
                  acked := if Answer(s.store, index, p.change).Done? then s.acked + {p} else s.acked)
  }

  // ---------- the invariant ----------

  /** The ID was given to an operation on this table. */
  ghost predicate Owns(s: System, name: string, id: nat)
  {
    id == 0 || exists p :: p in s.acked && IsGrant(p) && p.task.name == name && p.change.value.n == id
  }

  /** A record of a table: its own IDs, not one twice. */
  ghost predicate RecordOk(s: System, name: string, t: Table)
  {
    t.name == name && Owns(s, name, t.clusterId) && Owns(s, name, t.recoverId) && t.clusterId != t.recoverId
  }

  ghost predicate StoreOk(s: System)
  {
    forall k :: k in s.store ==>
      && 0 < s.store[k].ver <= s.index
      && match k
         case Sequence => s.store[k].value.Count? && s.store[k].value.n > RANGE_START
         case TableKey(name) => s.store[k].value.Rec? && RecordOk(s, name, s.store[k].value.table)
  }

  ghost predicate StartsOk(s: System)
  {
    forall t :: t in s.started ==>
      Owns(s, t.name, s.started[t].table.clusterId) && s.started[t].table.clusterId <= LastId(s.store)
  }

  /** A proposal for an ID that can still succeed is for the next one; an operation that read
      its table before asks for a higher ID than those in the record it read. */
  ghost predicate GrantOk(s: System, p: Proposal)
    requires IsGrant(p)
  {
    && p.change.ver <= IdVersion(s.store) && RANGE_START < p.change.value.n <= LastId(s.store) + 1
    && (p.change.ver == IdVersion(s.store) ==> p.change.value.n == LastId(s.store) + 1)
    && p.task in s.started && s.started[p.task].table.clusterId < p.change.value.n
  }

  ghost predicate PendingOk(s: System)
  {
    forall p :: p in s.pending ==>
      if IsGrant(p) then GrantOk(s, p)
      else p.change.key.TableKey? &&
           (p.change.Drop? ||
            (p.change.SetTo? && p.change.value.Rec? && RecordOk(s, p.change.key.name, p.change.value.table)))
  }

  ghost predicate AckedOk(s: System)
  {
    && s.acked <= s.pending
    && (forall p :: p in s.acked && IsGrant(p) ==> RANGE_START < p.change.value.n <= LastId(s.store))
    && (forall p, q :: p in s.acked && q in s.acked && IsGrant(p) && IsGrant(q) ==>
          p.change.value.n == q.change.value.n ==> p == q)
  }

  ghost predicate Inv(s: System)
  {
    StoreOk(s) && StartsOk(s) && PendingOk(s) && AckedOk(s)
  }

  // ---------- steps keep it ----------

  /** Nothing that is known is forgotten. */
  ghost predicate Grows(s: System, s': System)
  {
    s.acked <= s'.acked && LastId(s.store) <= LastId(s'.store)
  }

  lemma OwnsLater(s: System, s': System, name: string, id: nat)
    requires Owns(s, name, id) && Grows(s, s')
    ensures Owns(s', name, id)
  {
  }

  /** A step that changes neither the store nor what was reported. */
  lemma QuietKeeps(s: System, s': System)
    requires Inv(s) && s'.store == s.store && s'.acked == s.acked && s.index <= s'.index && s.pending <= s'.pending
    requires s.started.Keys <= s'.started.Keys && forall t :: t in s.started ==> s'.started[t] == s.started[t]
    requires forall t :: t in s'.started && t !in s.started ==>
               Owns(s, t.name, s'.started[t].table.clusterId) && s'.started[t].table.clusterId <= LastId(s.store)
    requires forall p :: p in s'.pending && p !in s.pending ==>
               if IsGrant(p) then GrantOk(s', p)
               else p.change.key.TableKey? &&
                    (p.change.Drop? || (p.change.SetTo? && p.change.value.Rec? &&
                                        RecordOk(s, p.change.key.name, p.change.value.table)))
    ensures Inv(s')
  {
    hide Owns, GrantOk;
    forall name, id | Owns(s, name, id) ensures Owns(s', name, id) { OwnsLater(s, s', name, id); }
    forall p | p in s.pending && IsGrant(p) ensures GrantOk(s', p) { GrantLater(s, s', p); }
    hide IsGrant;
    assert StoreOk(s');
    assert StartsOk(s');
    assert PendingOk(s');
  }

  lemma GrantLater(s: System, s': System, p: Proposal)
    requires IsGrant(p) && GrantOk(s, p) && s'.store == s.store
    requires s.started.Keys <= s'.started.Keys && forall t :: t in s.started ==> s'.started[t] == s.started[t]
    ensures GrantOk(s', p)
  {
  }

  lemma OwnedIdsKnown(s: System, name: string, id: nat)
    requires AckedOk(s) && Owns(s, name, id)
    ensures id <= LastId(s.store)
  {
  }

  lemma BeginKeeps(s: System, task: Task, s': System)
    requires Inv(s) && Next(s, Begin(task), s')
    ensures Inv(s')
  {
    hide Owns, GrantOk;
    OwnsNothing(s, task.name);
    var r := ReadTable(s.store, task.name);
    OwnedIdsKnown(s, task.name, r.table.clusterId);
    QuietKeeps(s, s');
  }

  lemma OwnsNothing(s: System, name: string)
    ensures Owns(s, name, 0)
  {
  }

  lemma TakeIdKeeps(s: System, task: Task, s': System)
    requires Inv(s) && Next(s, TakeId(task), s')
    ensures Inv(s')
  {
    hide Owns, RecordOk;
    QuietKeeps(s, s');
  }

  lemma GrantedIds(s: System, task: Task, id: nat)
    requires Inv(s) && Granted(s, task, id)
    ensures id > RANGE_START && Owns(s, task.name, id)
    ensures task in s.started && s.started[task].table.clusterId < id
  {
    var p :| p in s.acked && IsGrant(p) && p.task == task && p.change.value.n == id;
    assert p in s.pending;
  }

  lemma WriteKeeps(s: System, task: Task, id: nat, s': System)
    requires Inv(s) && Next(s, Write(task, id), s')
    ensures Inv(s')
  {
    hide Owns, GrantOk, Granted;
    GrantedIds(s, task, id);
    OwnsNothing(s, task.name);
    assert Owns(s, task.name, s.started[task].table.clusterId);
    QuietKeeps(s, s');
  }

  lemma FinishKeeps(s: System, task: Task, id: nat, s': System)
    requires Inv(s) && Next(s, Finish(task, id), s')
    ensures Inv(s')
  {
    hide Owns, GrantOk, Granted;
    GrantedIds(s, task, id);
    OwnsNothing(s, task.name);
    assert RecordOk(s, task.name, s.store[TableKey(task.name)].value.table);
    QuietKeeps(s, s');
  }

  /** An accepted grant is the successor of the last one. */
  lemma NextId(s: System, p: Proposal)
    requires Inv(s) && p in s.pending && IsGrant(p) && Accepts(s.store, p.change)
    ensures p.change.value.n == LastId(s.store) + 1
  {
    hide Owns, RecordOk;
    assert GrantOk(s, p);
  }

  lemma ApplyGrantKeeps(s: System, p: Proposal, index: nat, s': System)
    requires Inv(s) && Next(s, Apply(p, index), s') && IsGrant(p) && Accepts(s.store, p.change)
    ensures Inv(s')
  {
    hide Owns;
    NextId(s, p);
    assert LastId(s'.store) == LastId(s.store) + 1 && IdVersion(s'.store) == index;
    forall name, id | Owns(s, name, id) ensures Owns(s', name, id) { OwnsLater(s, s', name, id); }
    assert IdVersion(s.store) <= s.index;
    assert StoreOk(s') && StartsOk(s') && PendingOk(s') && AckedOk(s');
  }

  lemma ApplyRecordKeeps(s: System, p: Proposal, index: nat, s': System)
    requires Inv(s) && Next(s, Apply(p, index), s') && !IsGrant(p) && Accepts(s.store, p.change)
    ensures Inv(s')
  {
    hide Owns;
    assert p.change.key != Sequence;
    assert LastId(s'.store) == LastId(s.store) && IdVersion(s'.store) == IdVersion(s.store);
    forall name, id | Owns(s, name, id) ensures Owns(s', name, id) { OwnsLater(s, s', name, id); }
    assert StoreOk(s') && StartsOk(s') && PendingOk(s') && AckedOk(s');
  }

  /** Every step of every node keeps the invariant. */
  lemma StepKeeps(s: System, step: Step, s': System)
    requires Inv(s) && Next(s, step, s')
    ensures Inv(s')
  {
    hide Inv;
    match step
    case Elsewhere(index) => IndexKeeps(s, s');
    case Begin(task) => BeginKeeps(s, task, s');
    case TakeId(task) => TakeIdKeeps(s, task, s');
    case Write(task, id) => WriteKeeps(s, task, id, s');
    case Finish(task, id) => FinishKeeps(s, task, id, s');
    case Apply(p, index) =>
      if !Accepts(s.store, p.change) {
        IndexKeeps(s, s');
      } else if IsGrant(p) {
        ApplyGrantKeeps(s, p, index, s');
      } else {
        ApplyRecordKeeps(s, p, index, s');
      }
  }

  lemma IndexKeeps(s: System, s': System)
    requires Inv(s) && s' == s.(index := s'.index) && s.index <= s'.index
    ensures Inv(s')
  {
    hide Owns, RecordOk, GrantOk;
    QuietKeeps(s, s');
  }

  // ---------- whole runs ----------

  predicate Init(s: System)
  {
    s == System(map[], 0, map[], {}, {})
  }

  ghost predicate IsRun(states: seq<System>, steps: seq<Step>)
  {
    && |states| == |steps| + 1 && Init(states[0])
    && forall i :: 0 <= i < |steps| ==> Next(states[i], steps[i], states[i + 1])
  }

  lemma {:induction false} RunKeeps(states: seq<System>, steps: seq<Step>, i: nat)
    requires IsRun(states, steps) && i < |states|
    ensures Inv(states[i])
    decreases i
  {
    hide Next;
    if i > 0 {
      hide Inv;
      RunKeeps(states, steps, i - 1);
      StepKeeps(states[i - 1], steps[i - 1], states[i]);
    }
  }

  /** The step reports an ID to the operation that asked for it. */
  predicate Grants(s: System, step: Step)
  {
    step.Apply? && IsGrant(step.p) && Answer(s.store, step.index, step.p.change).Done?
  }

  lemma LastIdStep(s: System, step: Step, s': System)
    requires Inv(s) && Next(s, step, s')
    ensures LastId(s'.store) == if Grants(s, step) then step.p.change.value.n else LastId(s.store)
    ensures Grants(s, step) ==> step.p.change.value.n == LastId(s.store) + 1
    ensures LastId(s.store) >= RANGE_START
  {
    hide Owns, RecordOk, GrantOk;
    if Grants(s, step) { NextId(s, step.p); }
    if step.Apply? { assert step.p in s.pending; }
  }

  lemma {:induction false} LastIdGrows(states: seq<System>, steps: seq<Step>, i: nat, j: nat)
    requires IsRun(states, steps) && i <= j < |states|
    ensures LastId(states[i].store) <= LastId(states[j].store)
    decreases j - i
  {
    hide Inv, Next, Init;
    if i < j {
      LastIdGrows(states, steps, i, j - 1);
      RunKeeps(states, steps, j - 1);
      LastIdStep(states[j - 1], steps[j - 1], states[j]);
    }
  }

  /** In every run every ID that is given out lies above the reserved range, and later ones are
      higher: no ID is given out twice. */
  lemma IdsIncrease(states: seq<System>, steps: seq<Step>, i: nat, j: nat)
    requires IsRun(states, steps) && i <= j < |steps| && Grants(states[i], steps[i]) && Grants(states[j], steps[j])
    ensures 10000 < steps[i].p.change.value.n
    ensures i < j ==> steps[i].p.change.value.n < steps[j].p.change.value.n
  {
    hide Inv, Next, Init;
    RunKeeps(states, steps, i);
    RunKeeps(states, steps, j);
    LastIdStep(states[i], steps[i], states[i + 1]);
    LastIdStep(states[j], steps[j], states[j + 1]);
    if i < j { LastIdGrows(states, steps, i + 1, j); }
  }

  /** The nonzero IDs of a record. */
  function Ids(t: Table): (ids: set<nat>)
  {
    {t.clusterId, t.recoverId} - {0}
  }

  /** In every state of every run a stored record is its table's, uses no ID for both roles, and
      only IDs above the reserved range. */
  lemma RecordIds(states: seq<System>, steps: seq<Step>, i: nat, a: string)
    requires IsRun(states, steps) && i < |states| && TableKey(a) in states[i].store
    ensures states[i].store[TableKey(a)].value.Rec?
    ensures var t := states[i].store[TableKey(a)].value.table;
            t.name == a && t.clusterId != t.recoverId && forall id :: id in Ids(t) ==> id > 10000
  {
    hide IsRun;
    RunKeeps(states, steps, i);
    var s := states[i];
    var t := s.store[TableKey(a)].value.table;
    forall id | id in Ids(t) ensures id > RANGE_START {
      var p :| p in s.acked && IsGrant(p) && p.task.name == a && p.change.value.n == id;
    }
  }

  /** And no two stored tables share an ID in either role. */
  lemma NoSharedIds(states: seq<System>, steps: seq<Step>, i: nat, a: string, b: string)
    requires IsRun(states, steps) && i < |states| && a != b
    requires TableKey(a) in states[i].store && TableKey(b) in states[i].store
    ensures states[i].store[TableKey(a)].value.Rec? && states[i].store[TableKey(b)].value.Rec?
    ensures Ids(states[i].store[TableKey(a)].value.table) !! Ids(states[i].store[TableKey(b)].value.table)
  {
    hide IsRun;
    RunKeeps(states, steps, i);
    var s := states[i];
    var ta, tb := s.store[TableKey(a)].value.table, s.store[TableKey(b)].value.table;
    forall id | id in Ids(ta) ensures id !in Ids(tb) {
      var p :| p in s.acked && IsGrant(p) && p.task.name == a && p.change.value.n == id;
      assert forall q :: q in s.acked && IsGrant(q) && q.change.value.n == id ==> q == p;
    }
  }

  /** What the two operations come to when nothing else is applied in between: a created table
      has its ID, a restored one swaps its shard for the recovered one in two steps. */
  lemma CreateAndRestore(store: MetaMap, no: nat, name: string, id: nat, id': nat, index: nat)
    requires TableKey(name) !in store && 0 < index
    ensures var c := Commit(store, index, FirstRecord(Create(no, name), ReadTable(store, name), id).change);
            && ReadTable(c, name) == Start(Table(name, id, 0), index)
            && var task := Restore(no, name);
            && var r := Commit(c, index + 1, FirstRecord(task, ReadTable(c, name), id').change);
            && ReadTable(r, name) == Start(Table(name, id, id'), index + 1)
            && ReadTable(Commit(r, index + 2, LastRecord(task, r, id').change), name) ==
               Start(Table(name, id', 0), index + 2)
  {
  }

  // ---------- which shards to start and stop ----------

  predicate Uses(t: Table, id: nat)
  {
    id != 0 && (t.clusterId == id || t.recoverId == id)
  }

  /** `diffTables`: shards above the reserved range that a table uses and that do not run are
      started, those that run and no table uses are stopped. */
  method DiffTables(tables: map<string, Table>, running: seq<nat>) returns (toStart: map<nat, Table>, toStop: seq<nat>)
    ensures forall id :: id in toStart <==>
              id > RANGE_START && id !in running && exists n :: n in tables && Uses(tables[n], id)
    ensures forall id :: id in toStart ==> toStart[id] in tables.Values && Uses(toStart[id], id)
    ensures forall id :: id in toStop <==>
              id > RANGE_START && id in running && !exists n :: n in tables && Uses(tables[n], id)
    ensures forall i, j :: 0 <= i < j < |toStop| ==> toStop[i] != toStop[j]
  {
    hide Uses;
    var tableIds := TableIds(tables);
    var runningIds := set id | id in running;
    var missing := Outside(tableIds.Keys, runningIds);
    toStart := map id | id in missing :: tableIds[id];
    toStop := Outside(runningIds, tableIds.Keys);
  }

  /** The IDs above the reserved range that are in one set and not in the other. */
  method Outside(ids: set<nat>, others: set<nat>) returns (r: seq<nat>)
    ensures forall id :: id in r <==> id > RANGE_START && id in ids && id !in others
    ensures forall i, j :: 0 <= i < j < |r| ==> r[i] != r[j]
  {
    r := [];
    var todo := ids;
    while todo != {}
      invariant todo <= ids
      invariant forall id :: id in r <==> id > RANGE_START && id in ids && id !in todo && id !in others
      invariant forall i, j :: 0 <= i < j < |r| ==> r[i] != r[j]
      decreases |todo|
    {
      var id :| id in todo;
      if id !in others && id > RANGE_START { r := r + [id]; }
      todo := todo - {id};
    }
  }

  method TableIds(tables: map<string, Table>) returns (ids: map<nat, Table>)
    ensures forall id :: id in ids <==> exists n :: n in tables && Uses(tables[n], id)
    ensures forall id :: id in ids ==> ids[id] in tables.Values && Uses(ids[id], id)
  {
    ids := map[];
    var todo := tables.Keys;
    while todo != {}
      invariant todo <= tables.Keys
      invariant forall id :: id in ids <==> exists n :: n in tables && n !in todo && Uses(tables[n], id)
      invariant forall id :: id in ids ==> ids[id] in tables.Values && Uses(ids[id], id)
      decreases |todo|
    {
      var n :| n in todo;
      var t := tables[n];
      assert t in tables.Values;
      if t.clusterId != 0 { ids := ids[t.clusterId := t]; }
      if t.recoverId != 0 { ids := ids[t.recoverId := t]; }
      todo := todo - {n};
    }
  }
}
