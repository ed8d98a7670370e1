/**
 The store as the running node holds it: fields updated in place, the log
 rewritten entry by entry, the file replaced when an operation persists.
 Each method is proved to do what its step function says, and the object knows
 which operations made its memory and which of them had reached its file.
 */
module RaftStore {
  import opened Collections
  import opened RaftTypes
  import opened RaftSpec
  import opened RaftRefinement
  import opened RaftQuorum
  import opened RaftReopen

  /** Counts the voters that acknowledged and compares with half plus one. */
  method VoterMajority(voters: seq<NodeId>, acks: set<NodeId>) returns (reached: bool)
    ensures reached == Majority(voters, acks)
    ensures Canonical(voters) ==> (reached <==> IsQuorum(Elements(voters), Elements(voters) * acks))
  {
    var count := 0;
    for i := 0 to |voters|
      invariant count + CountIn(voters[i..], acks) == CountIn(voters, acks)
    {
      assert voters[i..][1..] == voters[i + 1..];
      if voters[i] in acks { count := count + 1; }
    }
    reached := |voters| > 0 && count >= |voters| / 2 + 1;
    if Canonical(voters) { MajorityIsQuorum(voters, acks); }
  }

  /** Counts the members of `ids` that are not in `other`, in any order. */
  method CountOutside(ids: set<NodeId>, other: set<NodeId>) returns (count: nat)
    ensures count == |ids - other|
  {
    count := 0;
    var left := ids;
    while left != {}
      invariant left <= ids && count == |ids - left - other|
      decreases |left|
    {
      var v :| v in left;
      Outside(ids, left, v, other);
      left := left - {v};
      if v !in other { count := count + 1; }
    }
    assert ids - left - other == ids - other;
  }

  lemma Outside(ids: set<NodeId>, left: set<NodeId>, v: NodeId, other: set<NodeId>)
    requires left <= ids && v in left
    ensures |ids - (left - {v}) - other| == |ids - left - other| + if v in other then 0 else 1
  {
    assert ids - (left - {v}) - other == (ids - left - other) + if v in other then {} else {v};
  }

  /** Counts nodes that left, then nodes that joined. */
  method VoterSetDifference(before: seq<NodeId>, after: seq<NodeId>) returns (difference: nat)
    ensures difference == Difference(before, after)
  {
    var gone := CountOutside(Elements(before), Elements(after));
    var joined := CountOutside(Elements(after), Elements(before));
    difference := gone + joined;
  }

  /** What an operation adds to the trace, and what that says about the files before and after it. */
  lemma Recorded(self: NodeId, before: seq<Op>, op: Op, saved: nat, boot: nat)
    requires boot >= 1 && saved <= |before|
    ensures var ops := before + [op];
            && PerformAll(Fresh(boot), self, ops) == Perform(PerformAll(Fresh(boot), self, before), self, op)
            && ops[..|ops|] == ops && ops[..saved] == before[..saved]
            && (AllFit(self, ops, boot) ==> ReopensAt(self, ops, |ops|, boot) && ReopensAt(self, ops, saved, boot))
  {
    hide Perform, PerformAll, AllFit, Reopen;
    OneMoreOp(self, before, op, boot);
    var ops := before + [op];
    assert ops[..|ops|] == ops;
    if AllFit(self, ops, boot) {
      FitsBefore(self, ops, saved, boot);
      ReopensOwnState(self, ops[..saved], boot);
      ReopensOwnState(self, ops, boot);
    }
  }

  ghost predicate ReopensAt(self: NodeId, ops: seq<Op>, n: nat, boot: nat)
    requires n <= |ops|
  {
    var s := PerformAll(Fresh(boot), self, ops[..n]);
    Reopen(s, boot) == Some(s)
  }

  lemma RestartKeeps(self: NodeId, ops: seq<Op>, saved: nat, boot: nat)
    requires boot >= 1 && saved <= |ops| && AllFit(self, ops, boot)
    ensures ReopensAt(self, ops, saved, boot) && ops[..saved][..saved] == ops[..saved]
    ensures var s := PerformAll(Fresh(boot), self, ops[..saved]); s.snapshotIndex <= s.commitIndex <= LastIndex(s)
  {
    hide Perform, PerformAll, AllFit, Reopen;
    FitsBefore(self, ops, saved, boot);
    ReopensOwnState(self, ops[..saved], boot);
    RunKeeps(self, ops[..saved], boot);
  }

  class RaftStore {
    const nodeID: NodeId
    const boot: nat
    var state: Store
    var file: Store
    /** The operations so far, and how many of them the file holds. */
    ghost var ops: seq<Op>
    ghost var saved: nat

    /** Index arithmetic on the retained log is in range. */
    ghost predicate InRange()
      reads this
    {
      state.snapshotIndex <= state.commitIndex <= LastIndex(state)
    }

    /**
     * Memory is what the operations make of a fresh store, and the file what they had made of it at some earlier point.
     */
    ghost predicate Valid()
      reads this
    {
      && boot >= 1 && InRange()
      && state == PerformAll(Fresh(boot), nodeID, ops)
      && saved <= |ops| && file == PerformAll(Fresh(boot), nodeID, ops[..saved])
    }

    /** The process may stop here: opening the file gives back exactly what was written. */
    ghost predicate Reopens()
      reads this
    {
      AllFit(nodeID, ops, boot) ==> Reopen(file, boot) == Some(file)
    }

    /** The outcome `o` of operation `op`, with `disk` the file and `before` the operations so far, has taken effect. */
    ghost predicate Took<T>(disk: Store, before: seq<Op>, op: Op, o: Outcome<T>)
      reads this
    {
      state == o.store && file == (if o.durable then o.store else disk) && ops == before + [op]
    }

    constructor (nodeID: NodeId, boot: nat)
      requires boot >= 1
      ensures this.nodeID == nodeID && this.boot == boot && state == file == Fresh(boot) && ops == [] && Valid()
              && Reopens()
    {
      this.nodeID, this.boot := nodeID, boot;
      state, file := Fresh(boot), Fresh(boot);
      ops, saved := [], 0;
      new;
      ReopensOwnState(nodeID, [], boot);
    }

    method Persist()
      modifies this`file, this`saved
      ensures file == state && saved == |ops|
    {
      file, saved := state, |ops|;
    }

    method ObserveTermNow(term: nat)
      requires Valid()
      modifies this
      ensures Took(old(file), old(ops), OpObserve(term), ObserveTerm(old(state), term)) && Valid() && Reopens()
    {
      hide PerformAll, AllFit, Reopen;
      Recorded(nodeID, ops, OpObserve(term), saved, boot);
      ops := ops + [OpObserve(term)];
      if term <= state.currentTerm { return; }
      state := state.(currentTerm := term, votedFor := "");
      Persist();
    }

    method ConfigureVotersNow(voters: seq<NodeId>) returns (r: Reply<()>)
      requires Valid()
      modifies this
      ensures var o := ConfigureVoters(old(state), nodeID, voters);
              Took(old(file), old(ops), OpConfigure(voters), o) && r == o.reply && Valid() && Reopens()
    {
      hide PerformAll, AllFit, Reopen, Normalize;
      Recorded(nodeID, ops, OpConfigure(voters), saved, boot);
      ops := ops + [OpConfigure(voters)];
      var normalized := Normalize(voters);
      if normalized == None || nodeID !in normalized.value { return Err; }
      if state.voters != [] { return if state.voters == normalized.value then Ok(()) else Err; }
      state := state.(voters := normalized.value);
      Persist();
      r := Ok(());
    }

    /** The process stops and opens its file again: whatever memory had beyond the file is gone, nothing else. */
    method RestartNow(length: Store -> nat) returns (ok: bool)
      requires Valid()
      modifies this
      ensures file == old(file) && saved == old(saved)
      ensures ok <==> OpenFile(length, old(file), boot).Some?
      ensures ok ==> state == OpenFile(length, old(file), boot).value
      ensures AllFit(nodeID, old(ops), boot) ==>
              && (ok <==> length(file) <= FILE_LIMIT)
              && (ok ==> state == file && ops == old(ops)[..saved] && Valid() && Reopens())
    {
      hide PerformAll, AllFit, Reopen;
      if length(file) > FILE_LIMIT { return false; }
      var found := Open(file, boot);
      ok := found.Some?;
      if !ok {
        if AllFit(nodeID, ops, boot) { RestartKeeps(nodeID, ops, saved, boot); }
        return false;
      }
      state := found.value;
      if AllFit(nodeID, ops, boot) {
        RestartKeeps(nodeID, ops, saved, boot);
        ops := ops[..saved];
      }
    }

    method BeginElectionNow() returns (r: Reply<VoteRequest>)
      requires Valid()
      modifies this
      ensures var o := BeginElection(old(state), nodeID);
              Took(old(file), old(ops), OpElect, o) && r == o.reply && Valid() && Reopens()
    {
      hide PerformAll, AllFit, Reopen;
      Recorded(nodeID, ops, OpElect, saved, boot);
      ops := ops + [OpElect];
      if state.voters != [] && !Active(state, nodeID) { return Err; }
      state := state.(currentTerm := state.currentTerm + 1, votedFor := nodeID);
      Persist();
      r := Ok(VoteRequest(state.currentTerm, nodeID, LastIndex(state), LastLogTerm(state)));
    }

    method RequestVoteNow(request: VoteRequest) returns (r: Reply<VoteResponse>)
      requires Valid()
      modifies this
      ensures var o := RequestVote(old(state), request);
              Took(old(file), old(ops), OpVote(request), o) && r == o.reply && Valid() && Reopens()
    {
      hide PerformAll, AllFit, Reopen;
      Recorded(nodeID, ops, OpVote(request), saved, boot);
      ops := ops + [OpVote(request)];
      if !ValidNodeId(request.candidate) || request.term == 0 { return Err; }
      if state.voters != [] && !Active(state, request.candidate) { return Ok(VoteResponse(state.currentTerm, false)); }
      if request.term < state.currentTerm { return Ok(VoteResponse(state.currentTerm, false)); }
      var changed := false;
      if request.term > state.currentTerm {
        state := state.(currentTerm := request.term, votedFor := "");
        changed := true;
      }
      var lastIndex, lastTerm := LastIndex(state), LastLogTerm(state);
      var upToDate := request.lastTerm > lastTerm || (request.lastTerm == lastTerm && request.lastIndex >= lastIndex);
      var granted := upToDate && (state.votedFor == "" || state.votedFor == request.candidate);
      if granted && state.votedFor != request.candidate {
        state := state.(votedFor := request.candidate);
        changed := true;
      }
      if changed { Persist(); }
      r := Ok(VoteResponse(state.currentTerm, granted));
    }

    /** Applies committed entries one by one on local copies and publishes them together at the end. */
    method ApplyThroughNow(target: nat) returns (ok: bool)
      requires InRange() && target <= LastIndex(state)
      modifies this`state
      ensures ok == ApplyThrough(old(state), target).Some?
      ensures state == if ok then ApplyThrough(old(state), target).value else old(state)
      ensures InRange()
    {
      hide Apply;
      var commit, m := state.commitIndex, MachineOf(state);
      var n := state.snapshotIndex;
      ghost var all := if target <= commit then [] else state.entries[commit - n..target - n];
      while commit < target
        invariant n <= commit && (commit <= target || commit == old(state).commitIndex)
        invariant state == old(state)
        invariant commit < target ==>
                  ApplyAll(MachineOf(state), all) == ApplyAll(m, state.entries[commit - n..target - n])
        invariant commit >= target ==>
                  ApplyAll(MachineOf(state), all) == Some(m) && commit == FullMax(old(state).commitIndex, target)
      {
        var entry := state.entries[commit - n];
        assert state.entries[commit - n..target - n][0] == entry;
        assert state.entries[commit - n..target - n][1..] == state.entries[commit + 1 - n..target - n];
        match Apply(m, entry.command) {
          case None => return false;
          case Some(next) => m := next;
        }
        commit := commit + 1;
      }
      state := WithMachine(state, m, commit);
      ok := true;
    }

    ghost static function FullMax(a: nat, b: nat): nat { if a < b then b else a }

    /** Walks the batch: keeps entries whose term agrees, truncates at the first that does not, appends the rest. */
    method AppendEntriesNow(request: AppendRequest) returns (r: Reply<AppendResponse>)
      requires Valid()
      modifies this
      ensures var o := AppendEntries(old(state), request);
              Took(old(file), old(ops), OpAppend(request), o) && r == o.reply && Valid() && Reopens()
    {
      hide ValidNodeId, ValidEntry, Follow, AppendLoop, PerformAll, AllFit, Reopen;
      Recorded(nodeID, ops, OpAppend(request), saved, boot);
      ops := ops + [OpAppend(request)];
      if !ValidNodeId(request.leader) || request.term == 0 { return Err; }
      if state.voters != [] && !Active(state, request.leader)
          { return Ok(AppendResponse(state.currentTerm, false, 0)); }
      if |request.entries| > 1024 { return Err; }
      if request.term < state.currentTerm { return Ok(AppendResponse(state.currentTerm, false, 0)); }
      if request.term > state.currentTerm { state := state.(currentTerm := request.term, votedFor := ""); }
      if TermOf(state, request.prevIndex) != Some(request.prevTerm) {
        Persist();
        return Ok(AppendResponse(state.currentTerm, false, 0));
      }
      var ok := WalkBatch(request);
      if !ok { return Err; }
      r := FollowNow(request);
    }

    /** Commits as far as the leader has, within the own log, and answers with the end of the batch. */
    method FollowNow(request: AppendRequest) returns (r: Reply<AppendResponse>)
      requires InRange() && state.snapshotIndex <= request.prevIndex
      modifies this`state, this`file, this`saved
      ensures var o := Follow(old(state), request);
              && state == o.store && r == o.reply && InRange()
              && (if o.durable then file == state && saved == |ops| else file == old(file) && saved == old(saved))
    {
      hide ApplyAll;
      if request.leaderCommit > state.commitIndex {
        var last := LastIndex(state);
        var target := if request.leaderCommit < last then request.leaderCommit else last;
        var applied := ApplyThroughNow(target);
        if !applied { return Err; }
      }
      Persist();
      var from := if request.prevIndex < state.snapshotIndex then state.snapshotIndex else request.prevIndex;
      r := Ok(AppendResponse(state.currentTerm, true, from + |request.entries|));
    }

    method WalkBatch(request: AppendRequest) returns (ok: bool)
      requires InRange() && state.snapshotIndex <= request.prevIndex <= LastIndex(state)
      modifies this`state
      ensures var s := old(state);
              var (log, done) := AppendLoop(s.entries, s.commitIndex - s.snapshotIndex,
                  request.prevIndex - s.snapshotIndex, request.entries);
              state == s.(entries := log) && ok == done
      ensures InRange()
    {
      hide ValidEntry;
      ghost var c, start := state.commitIndex - state.snapshotIndex, request.prevIndex - state.snapshotIndex;
      LoopKeeps(state.entries, c, start, request.entries);
      for offset := 0 to |request.entries|
        invariant state == old(state).(entries := state.entries)
        invariant start + offset <= |state.entries|
        invariant AppendLoop(old(state).entries, c, start, request.entries)
               == AppendLoop(state.entries, c, start + offset, request.entries[offset..])
      {
        var entry := request.entries[offset];
        assert request.entries[offset..][0] == entry && request.entries[offset..][1..] == request.entries[offset + 1..];
        var index := request.prevIndex + offset + 1;
        var at := index - state.snapshotIndex - 1;
        if at < |state.entries| {
          if state.entries[at].term == entry.term { continue; }
          if index <= state.commitIndex { return false; }
          state := state.(entries := state.entries[..at]);
        }
        assert state.entries == state.entries[..at];
        if !ValidEntry(entry) { return false; }
        state := state.(entries := state.entries + [entry]);
      }
      ok := true;
    }

    method AppendCommandNow(term: nat, command: Command) returns (r: Reply<nat>)
      requires Valid()
      modifies this
      ensures var o := AppendCommand(old(state), nodeID, term, command);
              Took(old(file), old(ops), OpCommand(term, command), o) && r == o.reply && Valid() && Reopens()
    {
      hide PerformAll, AllFit, Reopen;
      Recorded(nodeID, ops, OpCommand(term, command), saved, boot);
      ops := ops + [OpCommand(term, command)];
      if term == 0 || term != state.currentTerm || state.votedFor != nodeID { return Err; }
      var entry := Entry(term, command);
      if !ValidEntry(entry) { return Err; }
      if LastIndex(state) > state.commitIndex {
        var last := state.entries[|state.entries| - 1];
        if last.term == term && last.command == command { return Ok(LastIndex(state)); }
      }
      state := state.(entries := state.entries + [entry]);
      Persist();
      r := Ok(LastIndex(state));
    }

    method CommitWithVoterAcksNow(index: nat, term: nat, acks: set<NodeId>) returns (r: Reply<()>)
      requires Valid()
      modifies this
      ensures var o := CommitWithVoterAcks(old(state), index, term, acks);
              Took(old(file), old(ops), OpCommit(index, term, acks), o) && r == o.reply && Valid() && Reopens()
    {
      hide ApplyThrough, Majority, PerformAll, AllFit, Reopen;
      Recorded(nodeID, ops, OpCommit(index, term, acks), saved, boot);
      ops := ops + [OpCommit(index, term, acks)];
      if state.jointOld != [] {
        var a := VoterMajority(state.jointOld, acks);
        var b := VoterMajority(state.jointNew, acks);
        if !a || !b { return Err; }
      } else {
        var a := VoterMajority(state.voters, acks);
        if !a { return Err; }
      }
      if term != state.currentTerm || index <= state.snapshotIndex || TermOf(state, index) != Some(term) { return Err; }
      var applied := ApplyThroughNow(index);
      if !applied { return Err; }
      Persist();
      r := Ok(());
    }

    method CompactCommittedNow() returns (r: Reply<()>)
      requires Valid()
      modifies this
      ensures var o := CompactCommitted(old(state));
              Took(old(file), old(ops), OpCompact, o) && r == o.reply && Valid() && Reopens()
    {
      hide PerformAll, AllFit, Reopen;
      Recorded(nodeID, ops, OpCompact, saved, boot);
      ops := ops + [OpCompact];
      if state.jointOld != [] { return Err; }
      if state.commitIndex == state.snapshotIndex { return Ok(()); }
      var term := TermOf(state, state.commitIndex).value;
      var remove := state.commitIndex - state.snapshotIndex;
      state := state.(entries := state.entries[remove..]);
      state := state.(snapshotIndex := state.commitIndex, snapshotTerm := term, snapshotEpoch := state.appliedEpoch);
      state := state.(snapshotView := state.committedView);
      Persist();
      r := Ok(());
    }

    method InstallSnapshotNow(request: SnapshotRequest) returns (r: Reply<SnapshotResponse>)
      requires Valid()
      modifies this
      ensures var o := InstallSnapshot(old(state), nodeID, request);
              Took(old(file), old(ops), OpInstall(request), o) && r == o.reply && Valid() && Reopens()
    {
      hide ValidNodeId, ValidSnapshot, PerformAll, AllFit, Reopen;
      Recorded(nodeID, ops, OpInstall(request), saved, boot);
      ops := ops + [OpInstall(request)];
      if !ValidNodeId(request.leader) || request.term == 0 { return Err; }
      if state.voters != [] && request.leader !in state.voters
          { return Ok(SnapshotResponse(state.currentTerm, false, 0)); }
      var p := request.snapshot;
      if !ValidSnapshot(p, nodeID) { return Err; }
      if state.voters != [] && state.voters != p.voters { return Err; }
      if request.term < state.currentTerm { return Ok(SnapshotResponse(state.currentTerm, false, 0)); }
      if request.term > state.currentTerm { state := state.(currentTerm := request.term, votedFor := ""); }
      if p.index <= state.commitIndex {
        Persist();
        return Ok(SnapshotResponse(state.currentTerm, true, state.commitIndex));
      }
      var retained: Log := [];
      if TermOf(state, p.index) == Some(p.term) { retained := state.entries[p.index - state.snapshotIndex..]; }
      state := state.(snapshotIndex := p.index, snapshotTerm := p.term, snapshotEpoch := p.epoch, snapshotView :=
          p.view);
      state := state.(commitIndex := p.index, appliedEpoch := p.epoch, committedView := p.view, voters := p.voters,
          entries := retained);
      Persist();
      r := Ok(SnapshotResponse(state.currentTerm, true, p.index));
    }

    /** What the file holds replays, entry by entry, to what the file says. */
    static method Open(file: Store, boot: nat) returns (r: Option<Store>)
      ensures r == Reopen(file, boot)
    {
      hide ValidEntry, ViewFits, ConfigFits, Replay;
      var s := file;
      if s.snapshotEpoch == 0 && s.snapshotIndex == 0 { s := s.(snapshotEpoch := boot); }
      if s.appliedEpoch < boot || s.commitIndex < s.snapshotIndex || s.commitIndex > LastIndex(s)
          || s.snapshotEpoch < boot { return None; }
      if (s.snapshotIndex == 0 && s.snapshotTerm != 0) || (s.snapshotIndex > 0 && s.snapshotTerm == 0) { return None; }
      if !ViewFits(s.snapshotEpoch, boot, s.snapshotView) { return None; }
      if !ConfigFits(s.voters, s.jointOld, s.jointNew) { return None; }
      var m := ReplayEntries(s);
      if m == None { return None; }
      var x := m.value;
      if x.epoch != s.appliedEpoch { return None; }
      if (x.voters != [] && x.voters != s.voters) || x.jointOld != s.jointOld
          || x.jointNew != s.jointNew { return None; }
      if x.view == None {
        if s.committedView.Some? { return None; }
      } else if s.committedView == None {
        s := s.(committedView := x.view);
      } else if x.view != s.committedView {
        return None;
      }
      r := Some(s);
    }

    static method ReplayEntries(s: Store) returns (r: Option<Machine>)
      requires s.snapshotIndex <= s.commitIndex <= LastIndex(s)
      ensures r == if exists e :: e in s.entries && !ValidEntry(e) then None
                   else ReplayAll(Machine(s.snapshotEpoch, s.snapshotView, [], [], []),
                       s.entries[..s.commitIndex - s.snapshotIndex])
    {
      hide ValidEntry, Replay;
      var m := Machine(s.snapshotEpoch, s.snapshotView, [], [], []);
      ghost var c, first := s.commitIndex - s.snapshotIndex, m;
      for index := 0 to |s.entries|
        invariant forall k :: 0 <= k < index ==> ValidEntry(s.entries[k])
        invariant ReplayAll(first, s.entries[..c]) == ReplayAll(m, if index <= c then s.entries[index..c] else [])
      {
        var entry := s.entries[index];
        if !ValidEntry(entry) { assert entry in s.entries; return None; }
        if s.snapshotIndex + index + 1 <= s.commitIndex {
          assert s.entries[index..c][0] == entry && s.entries[index..c][1..] == s.entries[index + 1..c];
          match Replay(m, entry.command) {
            case None => return None;
            case Some(next) => m := next;
          }
        }
      }
      assert forall e :: e in s.entries ==> ValidEntry(e);
      r := Some(m);
    }
  }
}
