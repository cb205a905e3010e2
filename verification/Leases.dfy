/** Table leases: nodes read the stored lease, decide by the clock, and propose a
    compare-and-set that may be applied at any later time, repeatedly, or never. */
module Leases {
  import opened ByteStrings
  import opened MetaStore

  datatype Lease = Lease(id: nat, until: int)

  type LeaseStore = Entries<string, Lease>

  /** What a node remembers of a read of a table's lease. */
  datatype Seen = Seen(node: nat, table: string, found: Option<Versioned<Lease>>)

  datatype Proposal = Proposal(node: nat, change: Change<string, Lease>)

  function Get(store: LeaseStore, table: string): (r: Option<Versioned<Lease>>)
  {
    if table in store then Some(store[table]) else None
  }

  /** `LeaseTable`: a missing lease, an own one and an expired one can be taken. The version of a
      missing lease is zero. */
  function LeaseTable(seen: Seen, now: int, until: int): (r: Option<Proposal>)
  {
    match seen.found
    case None => Some(Proposal(seen.node, SetTo(seen.table, Lease(seen.node, until), 0)))
    case Some(l) =>
      if l.value.id == seen.node || l.value.until < now then
        Some(Proposal(seen.node, SetTo(seen.table, Lease(seen.node, until), l.ver)))
      else None
  }

  /** `ReturnTable`: only an own lease is removed. */
  function ReturnTable(seen: Seen): (r: Option<Proposal>)
  {
    match seen.found
    case None => None
    case Some(l) => if l.value.id == seen.node then Some(Proposal(seen.node, Drop(seen.table, l.ver))) else None
  }

  /** The store with its last Raft index, the clock, and what the nodes know: reads and
      proposals are never forgotten. `past` is the history of all writes by version. */
  datatype System = System(
    store: LeaseStore, index: nat, now: int, known: set<Seen>, pending: set<Proposal>, past: map<nat, (string, Lease)>)

  datatype Step =
    | Tick(now: int)
    | Elsewhere(index: nat)
    | Read(node: nat, table: string)
    | Decide(seen: Seen, until: int)
    | Return(seen: Seen)
    | Apply(p: Proposal, index: nat)

  function Record(past: map<nat, (string, Lease)>, index: nat, u: Change<string, Lease>): (r: map<nat, (string, Lease)>)
  {
    if u.SetTo? then past[index := (u.key, u.value)] else past
  }

  predicate Next(s: System, step: Step, s': System)
  {
    match step
    case Tick(now) => s.now <= now && s' == s.(now := now)
    case Elsewhere(index) => s.index < index && s' == s.(index := index)
    case Read(node, table) => s' == s.(known := s.known + {Seen(node, table, Get(s.store, table))})
    case Decide(seen, until) =>
      && seen in s.known && LeaseTable(seen, s.now, until).Some?
      && s' == s.(pending := s.pending + {LeaseTable(seen, s.now, until).value})
    case Return(seen) =>
      && seen in s.known && ReturnTable(seen).Some?
      && s' == s.(pending := s.pending + {ReturnTable(seen).value})
    case Apply(p, index) =>
      && p in s.pending && s.index < index
      && s' == s.(store := Commit(s.store, index, p.change), index := index,
                  past := if Answer(s.store, index, p.change).Done? then Record(s.past, index, p.change) else s.past)
  }

  /** The version names one write. */
  predicate Wrote(s: System, table: string, l: Versioned<Lease>)
  {
    0 < l.ver <= s.index && l.ver in s.past && s.past[l.ver] == (table, l.value)
  }

  /** The node may replace the write of this version: it is its own, or it has expired. */
  predicate May(s: System, p: Proposal, ver: nat)
  {
    && ver in s.past && ver <= s.index && s.past[ver].0 == p.change.key
    && (s.past[ver].1.id == p.node || (p.change.SetTo? && s.past[ver].1.until < s.now))
  }

  ghost predicate Inv(s: System)
  {
    && 0 !in s.past
    && (forall t :: t in s.store ==> Wrote(s, t, s.store[t]))
    && (forall r :: r in s.known && r.found.Some? ==> Wrote(s, r.table, r.found.value))
    && (forall p :: p in s.pending ==>
          && !p.change.Noted? && (p.change.ver == 0 || May(s, p, p.change.ver))
          && (p.change.SetTo? ==> p.change.value.id == p.node))
  }

  predicate Init(s: System)
  {
    s.store == map[] && s.index == 0 && s.known == {} && s.pending == {} && s.past == map[]
  }

  lemma MayLater(s: System, s': System, p: Proposal, ver: nat)
    requires May(s, p, ver) && s.now <= s'.now && s.index <= s'.index
    requires forall v :: v in s.past && v <= s.index ==> v in s'.past && s'.past[v] == s.past[v]
    ensures May(s', p, ver)
  {
  }

  lemma StepKeeps(s: System, step: Step, s': System)
    requires Inv(s) && Next(s, step, s')
    ensures Inv(s')
  {
    forall p | p in s'.pending
      ensures !p.change.Noted? && (p.change.ver == 0 || May(s', p, p.change.ver)) &&
              (p.change.SetTo? ==> p.change.value.id == p.node)
    {
      if p in s.pending && p.change.ver != 0 { MayLater(s, s', p, p.change.ver); }
    }
  }

  /** A step that replaces or removes a lease is its holder's, or the lease has expired. */
  lemma StepSafe(s: System, step: Step, s': System, table: string)
    requires Inv(s) && Next(s, step, s') && table in s.store && Get(s'.store, table) != Get(s.store, table)
    ensures step.Apply? && step.p.change.key == table
    ensures step.p.node == s.store[table].value.id || s.store[table].value.until < s.now
  {
  }

  // ---------- whole runs ----------

  ghost predicate IsRun(states: seq<System>, steps: seq<Step>)
  {
    && |states| == |steps| + 1 && Init(states[0])
    && forall i :: 0 <= i < |steps| ==> Next(states[i], steps[i], states[i + 1])
  }

  lemma {:induction false} RunKeeps(states: seq<System>, steps: seq<Step>, i: nat)
    requires IsRun(states, steps) && i < |states|
    ensures Inv(states[i])
    decreases i
  {
    hide Next, Inv;
    if i > 0 {
      RunKeeps(states, steps, i - 1);
      StepKeeps(states[i - 1], steps[i - 1], states[i]);
    } else {
      InitInv(states[0]);
    }
  }

  lemma InitInv(s: System)
    requires Init(s)
    ensures Inv(s)
  {
  }

  ghost predicate NotBy(steps: seq<Step>, i: nat, j: nat, node: nat, table: string)
    requires i <= j <= |steps|
  {
    forall k :: i <= k < j && steps[k].Apply? && steps[k].p.change.key == table ==> steps[k].p.node != node
  }

  lemma {:induction false} ClockForward(states: seq<System>, steps: seq<Step>, i: nat, j: nat)
    requires IsRun(states, steps) && i <= j < |states|
    ensures states[i].now <= states[j].now
    decreases j - i
  {
    if i < j {
      ClockForward(states, steps, i, j - 1);
      assert Next(states[j - 1], steps[j - 1], states[j]);
    }
  }

  /** Lease safety. Between two moments of any run at which a lease has not expired, the lease
      stays as it is unless a proposal of its own holder is applied: whatever the other nodes
      have read before, and however late their proposals arrive. */
  lemma {:induction false} LeaseHeld(states: seq<System>, steps: seq<Step>, i: nat, j: nat, table: string)
    requires IsRun(states, steps) && i <= j < |states| && table in states[i].store
    requires states[j].now <= states[i].store[table].value.until
    requires NotBy(steps, i, j, states[i].store[table].value.id, table)
    ensures table in states[j].store && states[j].store[table] == states[i].store[table]
    decreases j - i
  {
    hide Next, Inv, Init;
    if i < j {
      ClockForward(states, steps, j - 1, j);
      LeaseHeld(states, steps, i, j - 1, table);
      RunKeeps(states, steps, j - 1);
      if Get(states[j].store, table) != Get(states[j - 1].store, table) {
        StepSafe(states[j - 1], steps[j - 1], states[j], table);
        assert false;
      }
    }
  }

  /** Two nodes never hold the lease of a table at the same time: one record, one holder, and a
      node that has just taken it is that holder. */
  lemma AppliedLease(s: System, step: Step, s': System)
    requires Inv(s) && Next(s, step, s') && step.Apply? && step.p.change.SetTo?
    requires Answer(s.store, step.index, step.p.change).Done?
    ensures Get(s'.store, step.p.change.key) ==
            Some(Versioned(Lease(step.p.node, step.p.change.value.until), step.index))
    ensures forall t :: t != step.p.change.key ==> Get(s'.store, t) == Get(s.store, t)
  {
    assert step.p in s.pending;
  }

  /** Taking and returning. A node gets a lease exactly when it is free, its own or expired; if
      nothing else is applied in between it holds it then, and returning it frees the table. */
  lemma TakeAndReturn(s: System, node: nat, table: string, until: int, index: nat, index': nat)
    ensures var p := LeaseTable(Seen(node, table, Get(s.store, table)), s.now, until);
            && (p.Some? <==> table !in s.store || s.store[table].value.id == node || s.store[table].value.until < s.now)
            && (p.Some? && 0 < index ==>
                  var taken := Commit(s.store, index, p.value.change);
                  && Get(taken, table) == Some(Versioned(Lease(node, until), index))
                  && (forall other :: other != node ==> ReturnTable(Seen(other, table, Get(taken, table))) == None)
                  && var back := ReturnTable(Seen(node, table, Get(taken, table)));
                  && back.Some? && table !in Commit(taken, index', back.value.change))
  {
  }
}
