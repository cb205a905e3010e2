/** The messages of proto/mvcc.proto that travel through the Raft log. An optional
    reference of the generated code is an `Option`; `rangeEnd` is an option everywhere
    because the state machine tells a missing end from an empty one. */
module Messages {
  import opened ByteStrings

  datatype KeyValue = KeyValue(key: Bytes, createRevision: int64, modRevision: int64, value: Bytes)

  const EQUAL: int32 := 0
  const GREATER: int32 := 1
  const LESS: int32 := 2
  const NOT_EQUAL: int32 := 3
  const VALUE: int32 := 0

  datatype Compare = Compare(
    result: int32, target: int32, key: Bytes, targetValue: Option<Bytes>, rangeEnd: Option<Bytes>)

  datatype RangeOp = RangeOp(key: Bytes, rangeEnd: Option<Bytes>, limit: int64, keysOnly: bool, countOnly: bool)
  datatype PutOp = PutOp(key: Bytes, value: Bytes, prevKv: bool)
  datatype DeleteOp = DeleteOp(key: Bytes, rangeEnd: Option<Bytes>, prevKv: bool, count: bool)

  /** `RequestNone` is an operation whose oneof field is not set. */
  datatype RequestOp =
    | RequestRange(range: RangeOp)
    | RequestPut(put: PutOp)
    | RequestDelete(del: DeleteOp)
    | RequestNone

  datatype Txn = Txn(compare: seq<Compare>, success: seq<RequestOp>, failure: seq<RequestOp>)

  const PUT: int32 := 0
  const DELETE: int32 := 1
  const DUMMY: int32 := 2
  const PUT_BATCH: int32 := 3
  const DELETE_BATCH: int32 := 4
  const TXN: int32 := 5
  const SEQUENCE: int32 := 6

  datatype Command = Command(
    table: Bytes, kind: int32, kv: Option<KeyValue>, leaderIndex: Option<uint64>, batch: seq<KeyValue>,
    txn: Option<Txn>, rangeEnd: Option<Bytes>, prevKvs: bool, sequence: seq<Command>, count: bool)

  datatype RangeResponse = RangeResponse(kvs: seq<KeyValue>, more: bool, count: nat)

  datatype ResponseOp =
    | ResponseRange(range: RangeResponse)
    | ResponsePut(prevKv: Option<KeyValue>)
    | ResponseDelete(deleted: nat, prevKvs: seq<KeyValue>)

  /** A key and a value as the table stores them: the revision fields stay unset. */
  function Pair(key: Bytes, value: Bytes): (kv: KeyValue)
  {
    KeyValue(key, 0, 0, value)
  }
}
