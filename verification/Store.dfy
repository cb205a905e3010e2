/** The storage engine as this repository uses it: a sorted map of encoded keys and a batch
    of pending operations over it. */
module Store {
  import opened ByteStrings
  import opened Keys
  import LittleEndian
  import Table

  type RawMap = map<Bytes, Bytes>

  datatype BatchOp =
    | Set(key: Bytes, value: Bytes)
    | Remove(key: Bytes)
    | RemoveRange(lower: Bytes, upper: Bytes)

  function ApplyOp(db: RawMap, op: BatchOp): (r: RawMap)
  {
    match op
    case Set(k, v) => db[k := v]
    case Remove(k) => db - {k}
    case RemoveRange(lower, upper) => map e | e in db && !Within(e, lower, upper) :: db[e]
  }

  /** What a reader of an indexed batch sees, and what a commit leaves in the store. */
  function ApplyOps(db: RawMap, ops: seq<BatchOp>): (r: RawMap)
  {
    if ops == [] then db else ApplyOp(ApplyOps(db, ops[..|ops| - 1]), ops[|ops| - 1])
  }

  lemma ApplyOneMore(db: RawMap, ops: seq<BatchOp>, op: BatchOp)
    ensures ApplyOps(db, ops + [op]) == ApplyOp(ApplyOps(db, ops), op)
  {
    assert (ops + [op])[..|ops|] == ops;
  }

  /** The table of a replica holds user keys and the two index records, eight bytes each. */
  ghost predicate Valid(db: RawMap)
  {
    forall e :: e in db ==> IsUser(e) || (IsSystem(e) && |db[e]| == 8)
  }

  /** `readLocalIndex`: an index that was never stored reads as zero. */
  function ReadIndex(db: RawMap, e: Bytes): (v: uint64)
    requires e in db ==> |db[e]| == 8
  {
    if e in db then LittleEndian.Get64(db[e]) else 0
  }

  ghost function UserKeys(db: RawMap): (ks: set<Bytes>)
  {
    set e | e in db && IsUser(e) :: e[5..]
  }

  lemma UserKeysExact(db: RawMap, k: Bytes)
    ensures k in UserKeys(db) <==> EncodeUser(k) in db
  {
    EncodeUserForm(k);
    if k in UserKeys(db) {
      var e :| e in db && IsUser(e) && e[5..] == k;
      UserKeyForm(e);
    }
    if EncodeUser(k) in db { assert EncodeUser(k)[5..] in UserKeys(db); }
  }

  /** The user's view of a store. */
  ghost function Users(db: RawMap): (m: Table.UserMap)
    ensures forall k :: k in m <==> EncodeUser(k) in db
    ensures forall k :: k in m ==> m[k] == db[EncodeUser(k)]
  {
    assert forall k :: k in UserKeys(db) <==> EncodeUser(k) in db by {
      forall k ensures k in UserKeys(db) <==> EncodeUser(k) in db { UserKeysExact(db, k); }
    }
    map k | k in UserKeys(db) :: db[EncodeUser(k)]
  }

  lemma SameUsers(a: Table.UserMap, b: Table.UserMap)
    requires forall k :: k in a <==> k in b
    requires forall k :: k in a ==> a[k] == b[k]
    ensures a == b
  {
  }

  /** The operations of the state machine, seen through the user's view. */
  lemma SetUser(db: RawMap, k: Bytes, v: Bytes)
    requires Valid(db)
    ensures Valid(ApplyOp(db, Set(EncodeUser(k), v)))
    ensures Users(ApplyOp(db, Set(EncodeUser(k), v))) == Users(db)[k := v]
  {
    hide EncodeUser, IsUser, IsSystem;
    EncodeUserForm(k);
    var db' := db[EncodeUser(k) := v];
    forall x ensures EncodeUser(x) == EncodeUser(k) <==> x == k { EncodeUserInjective(x, k); }
    SameUsers(Users(db'), Users(db)[k := v]);
  }

  lemma RemoveUser(db: RawMap, k: Bytes)
    requires Valid(db)
    ensures Valid(ApplyOp(db, Remove(EncodeUser(k))))
    ensures Users(ApplyOp(db, Remove(EncodeUser(k)))) == Users(db) - {k}
  {
    hide EncodeUser, IsUser, IsSystem;
    var db' := db - {EncodeUser(k)};
    forall x ensures x in Users(db') <==> x in Users(db) && x != k { EncodeUserInjective(x, k); }
    SameUsers(Users(db'), Users(db) - {k});
  }

  lemma SystemNotUser(e: Bytes)
    requires IsSystem(e)
    ensures !IsUser(e)
  {
    assert e[4] == TYPE_SYSTEM;
  }

  lemma RemoveUserRange(db: RawMap, low: Bytes, high: Bytes)
    requires Valid(db)
    ensures Valid(ApplyOp(db, RemoveRange(LowerBound(low), UpperBound(high))))
    ensures Users(ApplyOp(db, RemoveRange(LowerBound(low), UpperBound(high)))) ==
            Table.DeleteRange(Users(db), low, high)
  {
    hide LowerBound, UpperBound, Within, InRange, EncodeUser, IsUser, IsSystem;
    var db' := ApplyOp(db, RemoveRange(LowerBound(low), UpperBound(high)));
    forall x ensures Within(EncodeUser(x), LowerBound(low), UpperBound(high)) <==> InRange(x, low, high) {
      BoundsExact(x, low, high);
    }
    SameUsers(Users(db'), Table.DeleteRange(Users(db), low, high));
  }

  lemma SetSystem(db: RawMap, e: Bytes, v: Bytes)
    requires Valid(db) && IsSystem(e) && |v| == 8
    ensures Valid(ApplyOp(db, Set(e, v))) && Users(ApplyOp(db, Set(e, v))) == Users(db)
  {
    forall x ensures EncodeUser(x) != e { EncodeUserForm(x); }
    SameUsers(Users(db[e := v]), Users(db));
  }

  /** Index records are never touched by an operation on user keys. */
  ghost predicate SameSystem(a: RawMap, b: RawMap)
  {
    forall e :: IsSystem(e) ==> (e in a <==> e in b) && (e in a ==> a[e] == b[e])
  }

  lemma UserOpsKeepSystem(db: RawMap, k: Bytes, v: Bytes, low: Bytes, high: Bytes)
    ensures SameSystem(db, ApplyOp(db, Set(EncodeUser(k), v)))
    ensures SameSystem(db, ApplyOp(db, Remove(EncodeUser(k))))
    ensures SameSystem(db, ApplyOp(db, RemoveRange(LowerBound(low), UpperBound(high))))
  {
    hide LowerBound, UpperBound, Within;
    EncodeUserForm(k);
    forall e | IsSystem(e) ensures !Within(e, LowerBound(low), UpperBound(high)) {
      BoundsExcludeSystem(e, low, high);
    }
  }

  // ---------- iterators ----------

  ghost function InBounds(db: RawMap, lower: Bytes, upper: Bytes): (s: set<Bytes>)
  {
    set e | e in db && Within(e, lower, upper)
  }

  function Encoded(ks: seq<Bytes>): (es: seq<Bytes>)
    ensures |es| == |ks| && forall i :: 0 <= i < |ks| ==> es[i] == EncodeUser(ks[i])
  {
    seq(|ks|, i requires 0 <= i < |ks| => EncodeUser(ks[i]))
  }

  /** An iterator over the encoded bounds of a range walks over exactly the matching user
      keys, in the order of the user keys. */
  lemma IteratorMatches(db: RawMap, low: Bytes, high: Bytes)
    requires Valid(db)
    ensures Sorted(InBounds(db, LowerBound(low), UpperBound(high))) == Encoded(Table.Matching(Users(db), low, high))
  {
    hide LowerBound, UpperBound, Within, InRange;
    var ks := Table.Matching(Users(db), low, high);
    var es := Encoded(ks);
    var s := InBounds(db, LowerBound(low), UpperBound(high));
    forall i, j | 0 <= i < j < |es| ensures Less(es[i], es[j]) {
      EncodingKeepsOrder(TYPE_USER, ks[i], ks[j]);
    }
    forall e ensures e in es <==> e in s {
      if e in es {
        var i :| 0 <= i < |es| && es[i] == e;
        assert ks[i] in ks;
        BoundsExact(ks[i], low, high);
      }
      if e in s {
        InBoundsIsUser(db, e, low, high);
        var k := e[5..];
        UserKeyForm(e);
        BoundsExact(k, low, high);
        assert k in ks;
        var i :| 0 <= i < |ks| && ks[i] == k;
        assert es[i] == e;
      }
    }
    AscendingUnique(es, Sorted(s));
  }

  lemma InBoundsIsUser(db: RawMap, e: Bytes, low: Bytes, high: Bytes)
    requires Valid(db) && e in db && Within(e, LowerBound(low), UpperBound(high))
    ensures IsUser(e)
  {
    hide LowerBound, UpperBound, Within;
    if IsSystem(e) { BoundsExcludeSystem(e, low, high); }
  }

  /** An iterator visits its keys in ascending order. */
  method Walk(keys: set<Bytes>) returns (visited: seq<Bytes>)
    ensures visited == Sorted(keys)
  {
    hide Less, IsLeast, Sorted, Ascending;
    var todo := keys;
    visited := [];
    while todo != {}
      invariant Sorted(keys) == visited + Sorted(todo)
      decreases |todo|
    {
      LeastIn(todo);
      var k :| k in todo && IsLeast(k, todo);
      SortedStep(todo, k);
      visited, todo := visited + [k], todo - {k};
    }
    SortedEmpty();
  }

  /** Walk over the keys of a reader between two bounds. */
  method NewIter(reader: RawMap, lower: Bytes, upper: Bytes) returns (keys: seq<Bytes>)
    ensures keys == Sorted(InBounds(reader, lower, upper))
  {
    hide Within;
    keys := Walk(set e | e in reader && Within(e, lower, upper));
  }

  lemma LeastIn(s: set<Bytes>)
    requires s != {}
    ensures Least(s) in s && IsLeast(Least(s), s)
  {
  }

  lemma SortedStep(s: set<Bytes>, k: Bytes)
    requires IsLeast(k, s)
    ensures Sorted(s) == [k] + Sorted(s - {k})
  {
    LeastUnique(s, k, Least(s));
  }

  lemma SortedEmpty()
    ensures Sorted({}) == []
  {
  }
}
