/** The database directory of a state machine and its switch to a recovered database. A change of
    the directory survives a crash only once the directory is synced: until then any part of the
    unsynced changes may or may not be there afterwards. */
module DbDir {
  import opened ByteStrings
  import LittleEndian

  /** "current" and "current.updating". */
  const CURRENT: Bytes := [99, 117, 114, 114, 101, 110, 116]
  const UPDATING: Bytes := [99, 117, 114, 114, 101, 110, 116, 46, 117, 112, 100, 97, 116, 105, 110, 103]

  /** The content of a file is safe once the file is synced. */
  datatype Entry = File(data: Bytes, synced: bool) | Database

  type Dir = map<Bytes, Entry>

  /** `Switch` is the rename of the updating file over the current one. */
  datatype DirOp = Link(name: Bytes, entry: Entry) | Unlink(name: Bytes) | Switch(entry: Entry)

  function ApplyOp(d: Dir, op: DirOp): (r: Dir)
  {
    match op
    case Link(name, entry) => d[name := entry]
    case Unlink(name) => d - {name}
    case Switch(entry) => (d - {UPDATING})[CURRENT := entry]
  }

  function ApplyOps(d: Dir, ops: seq<DirOp>): (r: Dir)
    decreases |ops|
  {
    if ops == [] then d else ApplyOps(ApplyOp(d, ops[0]), ops[1..])
  }

  // ---------- the current file ----------

  /** The first eight bytes of the checksum of a name, as a number, for any checksum. */
  type Sum = Bytes -> uint64

  /** What `SaveCurrentDBDirName` writes. */
  function Saved(sum: Sum, name: Bytes): (data: Bytes)
  {
    LittleEndian.Put64(sum(name)) + name
  }

  /** `GetCurrentDBDirName`: a file that is too short or does not match its checksum reads as an
      empty name, without an error. */
  function NameIn(sum: Sum, data: Bytes): (name: Bytes)
  {
    if |data| <= 8 then []
    else if data[..8] == LittleEndian.Put64(sum(data[8..])) then data[8..] else []
  }

  lemma NameRoundTrip(sum: Sum, name: Bytes)
    ensures NameIn(sum, Saved(sum, name)) == name
    ensures |Saved(sum, name)| == 8 + |name| && Saved(sum, name)[8..] == name
  {
    hide LittleEndian.Put64;
    assert Saved(sum, name)[8..] == name && Saved(sum, name)[..8] == LittleEndian.Put64(sum(name));
  }

  /** The name in the current file, if there is one. */
  function Named(sum: Sum, d: Dir): (name: Option<Bytes>)
  {
    if CURRENT in d && d[CURRENT].File? then Some(NameIn(sum, d[CURRENT].data)) else None
  }

  // ---------- cleanup ----------

  /** What is left after a cleanup: the current file and the database it names. */
  function Cleaned(sum: Sum, d: Dir): (r: Dir)
    requires Named(sum, d).Some?
  {
    map n | n in d && (n == CURRENT || n == Named(sum, d).value) && n != UPDATING :: d[n]
  }

  /** A directory a replica can start from: the current file is safe on disk and names a
      complete database. */
  predicate Good(sum: Sum, d: Dir, complete: set<Bytes>)
  {
    && CURRENT in d && d[CURRENT].File? && d[CURRENT].synced
    && var name := NameIn(sum, d[CURRENT].data);
    && name in d && d[name] == Database && name in complete && name != UPDATING && name != []
  }

  /** Cleaning up keeps exactly what the current file names, if it is a name at all. */
  lemma CleanupKeeps(sum: Sum, d: Dir, complete: set<Bytes>)
    requires Good(sum, d, complete)
    ensures Good(sum, Cleaned(sum, d), complete) && Named(sum, Cleaned(sum, d)) == Named(sum, d)
  {
  }

  /** A database survives a cleanup exactly when a valid current file names it: with a current
      file that is too short or fails its checksum every database is removed. */
  lemma CleanupExact(sum: Sum, d: Dir, name: Bytes)
    requires Named(sum, d).Some? && name in d && d[name] == Database && name != UPDATING && name != []
    ensures name in Cleaned(sum, d) <==> |d[CURRENT].data| > 8 && d[CURRENT].data == Saved(sum, name)
  {
    hide LittleEndian.Put64;
    var data := d[CURRENT].data;
    NameRoundTrip(sum, name);
    if |data| > 8 { assert data == data[..8] + data[8..]; }
  }

  /** A current file with a wrong checksum: the cleanup succeeds and the only database is gone. */
  lemma WrongChecksumLosesAll(sum: Sum, crc: Bytes)
    requires |crc| == 8 && crc != LittleEndian.Put64(sum([49]))
    ensures var d := map[CURRENT := File(crc + [49], true), [49] := Database];
            Named(sum, d) == Some([]) && Cleaned(sum, d) == map[CURRENT := File(crc + [49], true)]
  {
    hide LittleEndian.Put64;
    assert (crc + [49])[..8] == crc && (crc + [49])[8..] == [49];
  }

  lemma ApplyMore(d: Dir, ops: seq<DirOp>, op: DirOp)
    ensures ApplyOps(d, ops + [op]) == ApplyOp(ApplyOps(d, ops), op)
    decreases |ops|
  {
    if ops == [] {
      assert ops + [op] == [op] && [op][1..] == [];
      assert ApplyOps(ApplyOp(d, op), []) == ApplyOp(d, op);
    } else {
      assert (ops + [op])[1..] == ops[1..] + [op];
      ApplyMore(ApplyOp(d, ops[0]), ops[1..], op);
    }
  }

  /** The directory on a disk, with the changes that are not synced yet. */
  class Disk {
    var durable: Dir
    var pending: seq<DirOp>

    /** What programs see. */
    ghost function Visible(): (d: Dir)
      reads this
    {
      ApplyOps(durable, pending)
    }

    method Change(op: DirOp)
      modifies this`pending
      ensures pending == old(pending) + [op] && Visible() == ApplyOp(old(Visible()), op)
    {
      ApplyMore(durable, pending, op);
      pending := pending + [op];
    }

    method SyncDir()
      modifies this
      ensures pending == [] && durable == old(Visible()) && Visible() == old(Visible())
    {
      durable := ApplyOps(durable, pending);
      pending := [];
    }

    /** The file is created, written in two parts and synced, and with `faults` any of this may
        fail. Once the file is there its directory is synced at the end; `syncs` tells whether that
        works, which the code does not look at. `ops` are the changes, the last of which makes the
        file safe. */
    method SaveCurrentDBDirName(sum: Sum, name: Bytes, syncs: bool, faults: bool)
      returns (ok: bool, ghost ops: seq<DirOp>)
      modifies this
      ensures ok || faults
      ensures ok ==> ops != [] && ops[|ops| - 1] == Link(UPDATING, File(Saved(sum, name), true))
      ensures ok ==> Drafts(ops[..|ops| - 1])
      ensures ok ==> Visible() == old(Visible())[UPDATING := File(Saved(sum, name), true)]
      ensures !ok ==> Drafts(ops)
      ensures syncs && ops != [] ==> pending == [] && durable == ApplyOps(old(durable), old(pending) + ops)
      ensures !syncs || ops == [] ==> pending == old(pending) + ops && durable == old(durable)
    {
      hide ApplyOps, ApplyOp, Saved;
      ok, ops := false, [];
      assert pending + [] == pending;
      var created: bool := *;
      if faults && !created { return; }
      ok, ops := WriteName(LittleEndian.Put64(sum(name)), Saved(sum, name), faults);
      if syncs { SyncDir(); }
    }

    /** The writes to the new file, up to the first one that fails. */
    method WriteName(crc: Bytes, all: Bytes, faults: bool) returns (ok: bool, ghost ops: seq<DirOp>)
      modifies this`pending
      ensures ok || faults
      ensures ops != [] && pending == old(pending) + ops && Visible() == ApplyOps(old(durable), old(pending) + ops)
      ensures ok ==> ops[|ops| - 1] == Link(UPDATING, File(all, true)) && Drafts(ops[..|ops| - 1])
      ensures ok ==> Visible() == old(Visible())[UPDATING := File(all, true)]
      ensures !ok ==> Drafts(ops)
    {
      hide ApplyOps, ApplyOp;
      ghost var d := Visible();
      Change(Link(UPDATING, File([], false)));
      ops := [Link(UPDATING, File([], false))];
      var crcOk: bool := *;
      if faults && !crcOk { return false, ops; }
      Overwritten(d, File([], false), File(crc, false));
      Change(Link(UPDATING, File(crc, false)));
      ops := ops + [Link(UPDATING, File(crc, false))];
      var nameOk: bool := *;
      if faults && !nameOk { return false, ops; }
      Overwritten(d, File(crc, false), File(all, false));
      Change(Link(UPDATING, File(all, false)));
      ops := ops + [Link(UPDATING, File(all, false))];
      var syncOk: bool := *;
      if faults && !syncOk { return false, ops; }
      Overwritten(d, File(all, false), File(all, true));
      Change(Link(UPDATING, File(all, true)));
      ops := ops + [Link(UPDATING, File(all, true))];
      return true, ops;
    }

    /** The rename, then the sync of the directory; with `faults` either may fail. */
    method ReplaceCurrentDBFile(faults: bool) returns (ok: bool, ghost renamed: bool)
      modifies this
      ensures !ok ==> faults || UPDATING !in old(Visible())
      ensures ok ==> renamed && pending == [] && durable == Visible()
      ensures renamed ==> UPDATING in old(Visible())
      ensures renamed ==> Visible() == (old(Visible()) - {UPDATING})[CURRENT := old(Visible())[UPDATING]]
      ensures renamed && !ok ==> pending == old(pending) + [Switch(old(Visible())[UPDATING])] && durable == old(durable)
      ensures !renamed ==> pending == old(pending) && durable == old(durable)
    {
      var d := ApplyOps(durable, pending);
      var done: bool := *;
      if UPDATING !in d || (faults && !done) { return false, false; }
      Change(Switch(d[UPDATING]));
      var flushed: bool := *;
      if faults && !flushed { return false, true; }
      SyncDir();
      return true, true;
    }

    /** `CleanupNodeDataDir`. Nothing is synced, nothing but removals is added. */
    method CleanupNodeDataDir(sum: Sum) returns (ok: bool)
      modifies this`pending
      ensures ok <==> Named(sum, old(Visible())).Some?
      ensures ok ==> Visible() == Cleaned(sum, old(Visible()))
      ensures old(pending) <= pending && durable == old(durable)
      ensures ok ==> Removals(pending[|old(pending)|..], Named(sum, old(Visible())).value)
      ensures !ok ==> pending == old(pending) + [Unlink(UPDATING)]
    {
      hide ApplyOps, NameIn;
      ghost var before := Visible();
      Change(Unlink(UPDATING));
      var d := ApplyOps(durable, pending);
      if CURRENT !in d || !d[CURRENT].File? { return false; }
      ghost var base := pending;
      RemoveOthers(NameIn(sum, d[CURRENT].data));
      assert pending[|old(pending)|..] == [Unlink(UPDATING)] + pending[|base|..];
      ok := true;
    }

    /** The loop over the listing. */
    method RemoveOthers(name: Bytes)
      modifies this`pending
      ensures Visible() == Kept(old(Visible()), {CURRENT, name})
      ensures old(pending) <= pending && Removals(pending[|old(pending)|..], name)
    {
      hide ApplyOps, Kept;
      var d := ApplyOps(durable, pending);
      var todo := d.Keys;
      KeptAll(d, {CURRENT, name});
      while todo != {}
        invariant todo <= d.Keys && durable == old(durable)
        invariant Visible() == Kept(d, todo + {CURRENT, name})
        invariant old(pending) <= pending && Removals(pending[|old(pending)|..], name)
        decreases |todo|
      {
        var n :| n in todo;
        KeptLess(d, todo + {CURRENT, name}, n);
        if n != CURRENT && n != name {
          assert todo + {CURRENT, name} - {n} == todo - {n} + {CURRENT, name};
          ghost var base := pending;
          Change(Unlink(n));
          assert pending[|old(pending)|..] == base[|old(pending)|..] + [Unlink(n)];
        } else {
          assert todo + {CURRENT, name} == todo - {n} + {CURRENT, name};
        }
        todo := todo - {n};
      }
      assert todo + {CURRENT, name} == {CURRENT, name};
    }
  }

  lemma OnlyNamed(sum: Sum, d: Dir, name: Bytes)
    requires CURRENT in d && d[CURRENT].File? && NameIn(sum, d[CURRENT].data) == name
    requires name in d && name != UPDATING && name != CURRENT
    ensures Cleaned(sum, d) == map[CURRENT := d[CURRENT], name := d[name]]
  {
    hide NameIn;
  }

  lemma Overwritten(d: Dir, a: Entry, b: Entry)
    ensures ApplyOp(d, Link(UPDATING, b)) == d[UPDATING := b]
    ensures ApplyOp(ApplyOp(d, Link(UPDATING, a)), Link(UPDATING, b)) == ApplyOp(d, Link(UPDATING, b))
  {
  }

  /** Versions of the updating file that are not safe yet. */
  predicate Drafts(ops: seq<DirOp>)
  {
    forall i :: 0 <= i < |ops| ==> ops[i].Link? && ops[i].name == UPDATING && ops[i].entry.File? && !ops[i].entry.synced
  }

  function Kept(d: Dir, names: set<Bytes>): (r: Dir)
  {
    map n | n in d && n in names :: d[n]
  }

  lemma KeptAll(d: Dir, names: set<Bytes>)
    ensures Kept(d, d.Keys + names) == d
  {
  }

  lemma KeptLess(d: Dir, names: set<Bytes>, n: Bytes)
    ensures Kept(d, names - {n}) == Kept(d, names) - {n}
  {
  }

  /** Removals of anything but the current file and the database it names. */
  predicate Removals(ops: seq<DirOp>, name: Bytes)
  {
    forall i :: 0 <= i < |ops| ==>
      ops[i].Unlink? && ops[i].name != CURRENT && (ops[i].name == UPDATING || ops[i].name != name)
  }
}
