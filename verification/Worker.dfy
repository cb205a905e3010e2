/** The follower's replication worker: commands received from the leader are proposed to the
    follower's table in sequences. */
module Worker {
  import opened ByteStrings
  import opened Messages
  import opened CommandCodec
  import opened Lists
  import opened Replicate
  import Wire

  const DESIRED_PROPOSAL_SIZE := 256 * 1024

  function CommandList(cs: seq<ReplicateCommand>): (r: seq<Command>)
    ensures |r| == |cs| && forall i :: 0 <= i < |cs| ==> r[i] == cs[i].command
  {
    seq(|cs|, i requires 0 <= i < |cs| => cs[i].command)
  }

  /** The proposal for a chunk: one sequence, tagged with the leader index of its last command. */
  function Proposal(chunk: seq<ReplicateCommand>): (c: Command)
    requires chunk != []
  {
    EMPTY_COMMAND.(kind := SEQUENCE, sequence := CommandList(chunk),
                   leaderIndex := Some(chunk[|chunk| - 1].leaderIndex))
  }

  function LastLeader(chunks: seq<seq<ReplicateCommand>>): (i: uint64)
    requires forall j :: 0 <= j < |chunks| ==> chunks[j] != []
  {
    if chunks == [] then 0 else var c := chunks[|chunks| - 1]; c[|c| - 1].leaderIndex
  }

  /** A chunk is cut at the first command that reaches the desired size. */
  ghost predicate CutRight(chunk: seq<ReplicateCommand>)
  {
    chunk != [] && forall i :: 0 < i < |chunk| ==> SizeCommand(Proposal(chunk[..i])) < 256 * 1024
  }

  /** `proposeBatch`. With `faults` any proposal may fail, and one that is too large always does.
      The chunks are consecutive, non-empty and together a prefix of the commands, all of them when
      nothing fails; `failed` is the chunk whose proposal failed, and the result is the leader
      index of the last chunk that did not. */
  method ProposeBatch(commands: seq<ReplicateCommand>, faults: bool)
    returns (chunks: seq<seq<ReplicateCommand>>, failed: seq<ReplicateCommand>, lastApplied: uint64)
    ensures forall i :: 0 <= i < |chunks| ==> chunks[i] != []
    ensures lastApplied == LastLeader(chunks)
    ensures forall i :: 0 <= i < |chunks| ==> CutRight(chunks[i]) && SizeCommand(Proposal(chunks[i])) < Wire.TWO_63
    ensures failed != [] ==> CutRight(failed) && (faults || SizeCommand(Proposal(failed)) >= Wire.TWO_63)
    ensures Flatten(chunks) + failed <= commands
    ensures failed == [] ==> Flatten(chunks) == commands
    ensures forall i :: 0 <= i < |chunks| - 1 ==> SizeCommand(Proposal(chunks[i])) >= 256 * 1024
  {
    hide SizeCommand, Flatten, Proposal;
    chunks, failed, lastApplied := [], [], 0;
    var pending: seq<ReplicateCommand> := [];
    FlattenNothing<ReplicateCommand>();
    for i := 0 to |commands|
      invariant Flatten(chunks) + pending == commands[..i]
      invariant i == |commands| ==> pending == []
      invariant forall j :: 0 < j <= |pending| ==> SizeCommand(Proposal(pending[..j])) < DESIRED_PROPOSAL_SIZE
      invariant forall j :: 0 <= j < |chunks| ==> CutRight(chunks[j]) && SizeCommand(Proposal(chunks[j])) < Wire.TWO_63
      invariant forall j :: 0 <= j < |chunks| && (i < |commands| || j < |chunks| - 1) ==>
                  SizeCommand(Proposal(chunks[j])) >= DESIRED_PROPOSAL_SIZE
      invariant (forall j :: 0 <= j < |chunks| ==> chunks[j] != []) && lastApplied == LastLeader(chunks)
    {
      ghost var before := pending;
      pending := pending + [commands[i]];
      assert forall j :: 0 < j < |pending| ==> pending[..j] == before[..j];
      assert commands[..i + 1] == commands[..i] + [commands[i]];
      assert Flatten(chunks) + pending == commands[..i + 1];
      if SizeCommand(Proposal(pending)) >= DESIRED_PROPOSAL_SIZE || i == |commands| - 1 {
        assert CutRight(pending);
        var accepted: bool := *;
        if (faults && !accepted) || SizeCommand(Proposal(pending)) >= Wire.TWO_63 {
          failed := pending;
          return;
        }
        FlattenMore(chunks, pending);
        chunks, pending := chunks + [pending], [];
        lastApplied := commands[i].leaderIndex;
        assert Flatten(chunks) + [] == commands[..i + 1];
      } else {
        assert pending[..|pending|] == pending;
      }
    }
    assert commands[..|commands|] == commands;
    assert Flatten(chunks) + [] == Flatten(chunks);
  }
}
