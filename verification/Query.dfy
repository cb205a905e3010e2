/** Reads of a table: the methods work on encoded keys of a reader (a store, a snapshot of
    it, or an indexed batch over it) and are specified on the user's view. */
module Query {
  import opened ByteStrings
  import opened Messages
  import opened Keys
  import opened Store
  import opened Table

  /** One step of the read: the entry at `i` stops it, or is taken in. */
  lemma TakenStep(m: UserMap, ks: seq<Bytes>, i: nat, limit: int64, d: Detail)
    requires i < |ks| && forall k :: k in ks ==> k in m
    ensures var full := (i == limit && limit != 0) ||
                        SizeResponse(Prefix(m, ks, i, d)) + EntrySize(d, ks[i], m[ks[i]]) >= MAX_RANGE_SIZE;
            && Taken(m, ks, i, limit, d) == (if full then i else Taken(m, ks, i + 1, limit, d))
            && Prefix(m, ks, i + 1, d) == AddEntry(d, ks[i], m[ks[i]], Prefix(m, ks, i, d))
  {
    hide SizeResponse, EntrySize, AddEntry;
  }

  method Iterate(reader: RawMap, keys: seq<Bytes>, limit: int64, d: Detail, ghost ks: seq<Bytes>)
    returns (r: Outcome<RangeResponse>)
    requires keys == Encoded(ks) && forall k :: k in ks ==> k in Users(reader)
    ensures var n := Taken(Users(reader), ks, 0, limit, d);
            r == Ok(Prefix(Users(reader), ks, n, d).(more := n + 1 < |ks|))
  {
    hide Users, SizeResponse, EntrySize, AddEntry, Taken, Prefix, DecodeBytes, EncodeUser;
    ghost var m := Users(reader);
    var response, i := RangeResponse([], false, 0), 0;
    NothingTaken(m, ks, d);
    while i < |keys|
      invariant i <= |keys| && response == Prefix(m, ks, i, d)
      invariant Taken(m, ks, 0, limit, d) == Taken(m, ks, i, limit, d)
    {
      assert ks[i] in ks;
      UserEntry(ks[i]);
      TakenStep(m, ks, i, limit, d);
      var k := DecodeBytes(keys[i]);
      if k == None { return Fault; }
      var value := reader[keys[i]];
      if (i == limit && limit != 0) || SizeResponse(response) + EntrySize(d, k.value.key, value) >= MAX_RANGE_SIZE {
        return Ok(response.(more := i + 1 < |keys|));
      }
      response, i := AddEntry(d, k.value.key, value, response), i + 1;
    }
    r := Ok(response);
  }

  lemma UserEntry(k: Bytes)
    ensures DecodeBytes(EncodeUser(k)).Some? && DecodeBytes(EncodeUser(k)).value.key == k
  {
    DecodeBytesEncode(TYPE_USER, k);
  }

  lemma NothingTaken(m: UserMap, ks: seq<Bytes>, d: Detail)
    requires forall k :: k in ks ==> k in m
    ensures Prefix(m, ks, 0, d) == RangeResponse([], false, 0)
  {
  }

  method LookupRange(reader: RawMap, req: RangeOp, high: Bytes) returns (r: Outcome<RangeResponse>)
    requires Valid(reader)
    ensures r == Ok(RangeLookup(Users(reader), req, high))
  {
    hide Users, Encoded, Taken, Prefix, Matching, Within, InRange, InBounds, LowerBound, UpperBound;
    var lower, upper := IterOptionsForBounds(req.key, high);
    var keys := NewIter(reader, lower, upper);
    IteratorMatches(reader, req.key, high);
    r := Iterate(reader, keys, req.limit, DetailOf(req), Matching(Users(reader), req.key, high));
  }

  method LookupSingle(reader: RawMap, req: RangeOp) returns (r: RangeResponse)
    ensures r == SingleLookup(Users(reader), req)
  {
    var e := EncodeUser(req.key);
    if e !in reader { return RangeResponse([], false, 0); }
    var kv := Pair(req.key, if req.keysOnly || req.countOnly then [] else reader[e]);
    r := RangeResponse(if req.countOnly then [] else [kv], false, 1);
  }

  method LookupAny(reader: RawMap, req: RangeOp) returns (r: Outcome<RangeResponse>)
    requires Valid(reader)
    ensures r == Ok(Lookup(Users(reader), req))
  {
    hide RangeLookup, SingleLookup, Users;
    if req.rangeEnd.Some? {
      r := LookupRange(reader, req, req.rangeEnd.value);
    } else {
      var single := LookupSingle(reader, req);
      r := Ok(single);
    }
  }

  lemma CompareListed(m: UserMap, c: Compare, high: Bytes)
    requires c.rangeEnd == Some(high)
    ensures var ks := Matching(m, c.key, high);
            CompareOne(m, c) <==> ks != [] && forall j :: 0 <= j < |ks| ==> CompareValue(c, m[ks[j]])
  {
    hide InRange, CompareValue, Matching;
    var ks := Matching(m, c.key, high);
    assert forall j :: 0 <= j < |ks| ==> ks[j] in ks;
    if ks != [] { assert ks[0] in m && InRange(ks[0], c.key, high); }
    if ks != [] && forall j :: 0 <= j < |ks| ==> CompareValue(c, m[ks[j]]) {
      forall k | k in m && InRange(k, c.key, high) ensures CompareValue(c, m[k]) { assert k in ks; }
    }
  }

  method TxnCompareRange(reader: RawMap, c: Compare, high: Bytes) returns (ok: bool)
    requires Valid(reader) && c.rangeEnd == Some(high)
    ensures ok <==> CompareOne(Users(reader), c)
  {
    hide Users, Encoded, Within, InRange, InBounds, LowerBound, UpperBound, CompareValue, CompareOne, Matching,
      Ascending, Sorted;
    ghost var m := Users(reader);
    ghost var ks := Matching(m, c.key, high);
    CompareListed(m, c, high);
    var lower, upper := IterOptionsForBounds(c.key, high);
    var keys := NewIter(reader, lower, upper);
    IteratorMatches(reader, c.key, high);
    if keys == [] { return false; }
    var i := 0;
    while i < |keys|
      invariant i <= |keys|
      invariant forall j :: 0 <= j < i ==> CompareValue(c, m[ks[j]])
    {
      assert ks[i] in ks;
      if !CompareValue(c, reader[keys[i]]) { return false; }
      i := i + 1;
    }
    ok := true;
  }

  /** `txnCompare`: a conjunction that stops at the first comparison that fails. */
  method TxnCompare(reader: RawMap, cs: seq<Compare>) returns (ok: bool)
    requires Valid(reader)
    ensures ok <==> CompareAll(Users(reader), cs)
  {
    hide Users, CompareValue, InRange, IsUser, IsSystem;
    var i := 0;
    while i < |cs|
      invariant i <= |cs| && forall j :: 0 <= j < i ==> CompareOne(Users(reader), cs[j])
    {
      var c := cs[i];
      var res;
      if c.rangeEnd.Some? {
        res := TxnCompareRange(reader, c, c.rangeEnd.value);
      } else {
        var e := EncodeUser(c.key);
        res := e in reader && CompareValue(c, reader[e]);
      }
      if !res {
        assert c in cs;
        return false;
      }
      i := i + 1;
    }
    ok := true;
  }
}
