/**
 * A leader shard and one follower shard joined by a network that may lose, repeat and reorder. The leader sends the
 * changes it appended under their log positions, and snapshots of its whole state.
 */
module Replica {
  import opened Strings
  import opened Collections
  import opened Records
  import opened Segments
  import opened ShardLayers
  import opened Recovery
  import F = Filters

  datatype Message = Change(sequence: nat, mutation: Mutation) | Snapshot(sequence: nat, records: seq<Record>)

  datatype Reply = Accepted | Repeated | Compacted | Conflict | Gap | Invalid

  /** The follower's answer to one sequenced change; only an accepted one touches its state. */
  function React(m: Memory, sequence: nat, mu: Mutation): Reply
  {
    if sequence == 0 || !Valid(mu) then Invalid
    else if sequence < m.nextLSN then
      if sequence !in m.digests then Reply.Compacted
      else if m.digests[sequence] != mu then Conflict
      else Repeated
    else if sequence != m.nextLSN then Gap
    else Accepted
  }

  datatype Pair = Pair(leader: System, follower: System, net: set<Message>)

  datatype Event =
    | Lead(action: Action)
    | SendChange(sequence: nat)
    | SendSnapshot(records: seq<Record>)
    | Local(action: Action)
    | ReceiveChange(sequence: nat, mutation: Mutation)
    | ReceiveSnapshot(sequence: nat, records: seq<Record>, size: nat)

  ghost predicate Happens(p: Pair, e: Event, q: Pair)
  {
    match e
    case Lead(a) =>
      !a.AdoptSnapshot? && Next(p.leader, a, q.leader) && q.follower == p.follower && q.net == p.net
    case SendChange(sequence) =>
      && 0 < sequence <= |p.leader.history|
      && q == p.(net := p.net + {Change(sequence, p.leader.history[sequence - 1])})
    case SendSnapshot(records) =>
      && p.leader.phase == Idle && p.leader.memory.nextLSN > 0 && IsListing(Seen(p.leader.memory.layers), records)
      && q == p.(net := p.net + {Snapshot(p.leader.memory.nextLSN - 1, records)})
    case Local(a) =>
      && (a == ApplyAppended(true) || a.Publish? || a == Reset || a == InstallBase || a == LoadFails || a == Crash)
      && Next(p.follower, a, q.follower) && q.leader == p.leader && q.net == p.net
    case ReceiveChange(sequence, mu) =>
      && Change(sequence, mu) in p.net && p.follower.phase == Idle
      && q.leader == p.leader && q.net == p.net
      && if React(p.follower.memory, sequence, mu) == Accepted then Next(p.follower, Append(mu), q.follower)
         else q.follower == p.follower
    case ReceiveSnapshot(sequence, records, size) =>
      && Snapshot(sequence, records) in p.net && p.follower.phase == Idle
      && q.leader == p.leader && q.net == p.net
      && if 0 < sequence && p.follower.memory.nextLSN <= sequence + 1 && DistinctKeys(records)
          && Readable(p.follower.disk) then
           sequence <= |p.leader.history| &&
           q.follower == System(Disk(Some(SnapshotManifest(sequence, records, size)), []),
                                Memory(Install(PutAll(map[], records)), sequence + 1, sequence, map[]), Idle,
                                    p.leader.history[..sequence])
         else q.follower == p.follower
  }

  ghost predicate IsRun(run: seq<Pair>, events: seq<Event>)
  {
    && |run| == |events| + 1 && run[0] == Pair(Fresh(), Fresh(), {})
    && forall i :: 0 <= i < |events| ==> Happens(run[i], events[i], run[i + 1])
  }

  /* ---------- the invariant ---------- */

  ghost predicate Truthful(m: Message, history: seq<Mutation>)
  {
    && m.sequence <= |history|
    && (m.Change? ==> 0 < m.sequence && m.mutation == history[m.sequence - 1])
    && (m.Snapshot? ==> DistinctKeys(m.records) && PutAll(map[], m.records) == Replay(history[..m.sequence]))
  }

  /** A follower remembers exactly the changes above its checkpoint. */
  ghost predicate Remembers(s: System)
  {
    && (s.phase == Cleared ==> s.memory.digests == map[])
    && (s.phase != Cleared ==>
          forall i: nat :: i in s.memory.digests <==>
              s.memory.checkpoint < i <= if s.phase == Appended then |s.history| - 1 else |s.history|)
  }

  ghost predicate AllValid(history: seq<Mutation>)
  {
    forall i :: 0 <= i < |history| ==> Valid(history[i])
  }

  ghost predicate PairInv(p: Pair)
  {
    && Inv(p.leader) && Inv(p.follower) && Remembers(p.follower)
    && p.follower.history <= p.leader.history && AllValid(p.leader.history)
    && forall m :: m in p.net ==> Truthful(m, p.leader.history)
  }

  lemma TruthfulLater(m: Message, history: seq<Mutation>, later: seq<Mutation>)
    requires Truthful(m, history) && history <= later
    ensures Truthful(m, later)
  {
    assert later[..m.sequence] == history[..m.sequence];
  }

  lemma NextGrows(s: System, a: Action, t: System)
    requires Next(s, a, t) && !a.AdoptSnapshot?
    ensures s.history <= t.history && (AllValid(s.history) ==> AllValid(t.history))
  {
    hide Valid;
  }

  lemma LeadKeeps(p: Pair, a: Action, q: Pair)
    requires PairInv(p) && Happens(p, Lead(a), q) && a != LoadFails
    ensures PairInv(q)
  {
    hide Inv, Next, Truthful, Remembers;
    NextKeeps(p.leader, a, q.leader);
    NextGrows(p.leader, a, q.leader);
    forall m | m in q.net
        ensures Truthful(m, q.leader.history) { TruthfulLater(m, p.leader.history, q.leader.history); }
  }

  lemma ListingDistinct(m: Live, records: seq<Record>)
    requires IsListing(m, records)
    ensures DistinctKeys(records)
  {
    forall i, j | 0 <= i < j < |records|
        ensures records[i].key != records[j].key { Irreflexive(records[i].key, records[j].key); }
  }

  lemma Irreflexive(a: string, b: string)
    requires Less(a, b)
    ensures a != b
  {
    if a == b { LessIrreflexive(a); }
  }

  lemma ExportTruthful(s: System, records: seq<Record>)
    requires Inv(s) && s.phase == Idle && IsListing(Seen(s.memory.layers), records)
    ensures Truthful(Snapshot(s.memory.nextLSN - 1, records), s.history)
  {
    hide IsListing, Seen, Sound, PutAll, DistinctKeys;
    ListingDistinct(Seen(s.memory.layers), records);
    ListingPut(Seen(s.memory.layers), records);
  }

  lemma SendKeeps(p: Pair, e: Event, q: Pair)
    requires PairInv(p) && Happens(p, e, q) && (e.SendChange? || e.SendSnapshot?)
    ensures PairInv(q)
  {
    hide Inv, Next, Remembers, IsListing, Seen, Replay, DistinctKeys, PutAll;
    if e.SendSnapshot? { ExportTruthful(p.leader, e.records); }
  }

  lemma LocalKeeps(p: Pair, a: Action, q: Pair)
    requires PairInv(p) && Happens(p, Local(a), q) && a != LoadFails
    ensures PairInv(q)
  {
    hide Inv, Next, Truthful, Remembers;
    NextKeeps(p.follower, a, q.follower);
    LocalRemembers(p.follower, a, q.follower);
    SameHistory(p.follower, a, q.follower);
  }

  lemma SameHistory(s: System, a: Action, t: System)
    requires Next(s, a, t) && !a.AdoptSnapshot? && !a.Append?
    ensures s.history == t.history
  {
  }

  lemma LocalRemembers(s: System, a: Action, t: System)
    requires Inv(s) && Remembers(s) && Next(s, a, t)
    requires a == ApplyAppended(true) || a.Publish? || a == Reset || a == InstallBase || a == Crash
    ensures Remembers(t)
  {
    hide LayersOk, StackOk, Publishes, Install;
    if a == Crash {
      RetainedKeys(s.disk.wal, s.history, Checkpointed(s.disk));
    }
  }

  lemma {:induction false} RetainedKeys(wal: seq<Logged>, history: seq<Mutation>, ck: nat)
    requires LogMatches(wal, history) && |history| - |wal| <= ck
    ensures forall i: nat :: i in Retained(wal, ck) <==> ck < i <= |history|
    decreases |wal|
  {
    if wal != [] {
      LogInit(wal, history);
      if ck < |history| {
        RetainedKeys(wal[..|wal| - 1], history[..|history| - 1], ck);
      } else {
        RetainedNone(wal, ck);
      }
    }
  }

  lemma {:induction false} RetainedNone(wal: seq<Logged>, ck: nat)
    requires forall i :: 0 <= i < |wal| ==> wal[i].lsn <= ck
    ensures Retained(wal, ck) == map[]
    decreases |wal|
  {
    if wal != [] { RetainedNone(wal[..|wal| - 1], ck); }
  }

  lemma ReceiveChangeKeeps(p: Pair, sequence: nat, mu: Mutation, q: Pair)
    requires PairInv(p) && Happens(p, ReceiveChange(sequence, mu), q)
    ensures PairInv(q)
  {
    hide DiskOk, LayersOk, StackOk, DigestsOk;
    if React(p.follower.memory, sequence, mu) == Accepted {
      assert Truthful(Change(sequence, mu), p.leader.history);
      NextKeeps(p.follower, Append(mu), q.follower);
      assert p.leader.history[..sequence] == p.follower.history + [mu];
    }
  }

  lemma ReceiveSnapshotKeeps(p: Pair, sequence: nat, records: seq<Record>, size: nat, q: Pair)
    requires PairInv(p) && Happens(p, ReceiveSnapshot(sequence, records, size), q)
    ensures PairInv(q)
  {
    hide Inv, DistinctKeys, PutAll, Install, Replay;
    if q.follower != p.follower {
      assert Truthful(Snapshot(sequence, records), p.leader.history);
      var h := p.leader.history[..sequence];
      assert Next(p.follower, AdoptSnapshot(h, records, size), q.follower);
      AdoptKeeps(p.follower, h, records, size, q.follower);
    }
  }

  /** Neither shard failed to load what its checkpoint had published. */
  ghost predicate NoneFails(events: seq<Event>)
  {
    Lead(LoadFails) !in events && Local(LoadFails) !in events
  }

  lemma HappensKeeps(p: Pair, e: Event, q: Pair)
    requires PairInv(p) && Happens(p, e, q) && e != Lead(LoadFails) && e != Local(LoadFails)
    ensures PairInv(q)
  {
    hide PairInv, Happens;
    match e
    case Lead(a) => LeadKeeps(p, a, q);
    case SendChange(_) => SendKeeps(p, e, q);
    case SendSnapshot(_) => SendKeeps(p, e, q);
    case Local(a) => LocalKeeps(p, a, q);
    case ReceiveChange(sequence, mu) => ReceiveChangeKeeps(p, sequence, mu, q);
    case ReceiveSnapshot(sequence, records, size) => ReceiveSnapshotKeeps(p, sequence, records, size, q);
  }

  lemma {:induction false} RunHolds(run: seq<Pair>, events: seq<Event>, i: nat)
    requires IsRun(run, events) && i < |run| && NoneFails(events[..i])
    ensures PairInv(run[i])
    decreases i
  {
    hide PairInv, Happens;
    if i == 0 {
      StartHolds();
    } else {
      assert events[..i][i - 1] == events[i - 1] && events[..i][..i - 1] == events[..i - 1];
      RunHolds(run, events, i - 1);
      assert Happens(run[i - 1], events[i - 1], run[i - 1 + 1]);
      HappensKeeps(run[i - 1], events[i - 1], run[i]);
    }
  }

  lemma StartHolds()
    ensures PairInv(Pair(Fresh(), Fresh(), {}))
  {
    hide Inv;
    FreshHolds();
  }

  /* ---------- theorems over every run ---------- */

  /**
   * As long as no checkpoint failed to load, the follower is the replay of the leader's log up to the follower's last
   * position. It reopens exactly if its manifest is accepted and what it has checkpointed has a filter file that
   * loads, and then to the same.
   */
  lemma ReplicaPrefix(run: seq<Pair>, events: seq<Event>, i: nat)
    requires IsRun(run, events) && i < |run| && NoneFails(events[..i])
    ensures var p := run[i];
            var last := p.follower.memory.nextLSN - 1;
            && 0 <= last <= |p.leader.history|
            && p.follower.history == p.leader.history[..last]
            && (p.follower.phase == Idle ==> Seen(p.follower.memory.layers) == Replay(p.leader.history[..last]))
            && (Reopen(p.follower.disk).Some? <==> Opens(p.follower.disk, p.leader.history[..last]))
            && (Reopen(p.follower.disk).Some? ==>
                  Seen(Reopen(p.follower.disk).value.layers) == Replay(p.leader.history[..last])
                  && Reopen(p.follower.disk).value.nextLSN == last + 1)
  {
    hide DiskOk, Happens, Seen, Replay, Reopen, Sound, Truthful, Remembers, Opens;
    RunHolds(run, events, i);
    var f := run[i].follower;
    ReopenOk(f.disk, f.history);
    assert f.history[..|f.history|] == f.history;
    assert run[i].leader.history[..|f.history|] == f.history;
  }

  /**
   * Every answer of the follower, to any change from anyone, told from the leader's log alone: a retained position is
   * confirmed or refused according to what the leader wrote there, and is never replaced.
   */
  lemma FollowerReplies(run: seq<Pair>, events: seq<Event>, i: nat, sequence: nat, mu: Mutation)
    requires IsRun(run, events) && i < |run| && NoneFails(events[..i]) && run[i].follower.phase == Idle
    ensures var f := run[i].follower.memory; var log := run[i].leader.history; var reply := React(f, sequence, mu);
            && f.checkpoint < f.nextLSN <= |log| + 1
            && (reply == Invalid <==> sequence == 0 || (mu.Put? && (|mu.records| == 0 || |mu.records| > 10000)))
            && (reply != Invalid ==>
                  && (reply == Reply.Compacted <==> sequence <= f.checkpoint)
                  && (reply == Repeated <==> f.checkpoint < sequence < f.nextLSN && mu == log[sequence - 1])
                  && (reply == Conflict <==> f.checkpoint < sequence < f.nextLSN && mu != log[sequence - 1])
                  && (reply == Accepted <==> sequence == f.nextLSN)
                  && (reply == Gap <==> sequence > f.nextLSN))
  {
    hide Happens, Seen, Replay, Sound, Truthful, StackOk, LogMatches;
    RunHolds(run, events, i);
  }

  /** No record in the change has an indexed value under the empty name. */
  ghost predicate StorableChange(mu: Mutation)
  {
    mu.Put? ==> F.AllStorable(MetadataOf(mu.records))
  }

  ghost predicate AllStorableChanges(history: seq<Mutation>)
  {
    forall i :: 0 <= i < |history| ==> StorableChange(history[i])
  }

  lemma {:induction false} StorableReplay(history: seq<Mutation>)
    requires AllStorableChanges(history)
    ensures Clean(Replay(history))
    decreases |history|
  {
    hide Clean;
    if history == [] {
      NothingClean();
    } else {
      StorableReplay(history[..|history| - 1]);
      ActClean(Replay(history[..|history| - 1]), history[|history| - 1]);
    }
  }

  lemma FilterStays(s: System)
    requires Inv(s) && s.disk.manifest.Some? && Clean(Replay(s.history[..Checkpointed(s.disk)]))
    ensures FilterLoads(s.disk.manifest.value)
  {
    hide LayersOk, LogMatches, Clean, F.AllStorable, Replay, Fold, InOrder, BundleFirst;
  }

  lemma PrefixStorable(s: System, history: seq<Mutation>)
    requires Inv(s) && s.history <= history && AllStorableChanges(history)
    ensures Filterable(s)
  {
    hide Inv, StorableChange, Clean, FilterLoads;
    StorableReplay(s.history);
    if s.disk.manifest.Some? {
      assert Checkpointed(s.disk) <= |s.history| by { PositionBound(s); }
      StorableReplay(s.history[..Checkpointed(s.disk)]);
      FilterStays(s);
    }
  }

  lemma PositionBound(s: System)
    requires Inv(s)
    ensures Checkpointed(s.disk) <= |s.history|
  {
    hide LayersOk, LogMatches, StackOk;
  }

  lemma {:induction false} StorableRun(run: seq<Pair>, events: seq<Event>, i: nat)
    requires IsRun(run, events) && i < |run| && AllStorableChanges(run[i].leader.history)
    ensures NoneFails(events[..i]) && PairInv(run[i]) && Filterable(run[i].follower)
    decreases i
  {
    hide PairInv, Happens, AllStorableChanges, Filterable;
    if i == 0 {
      StartHolds();
    } else {
      assert Happens(run[i - 1], events[i - 1], run[i - 1 + 1]);
      LeaderGrows(run[i - 1], events[i - 1], run[i]);
      StorableRun(run, events, i - 1);
      StorablePair(run[i - 1], run[i].leader.history);
      NoFailure(run[i - 1], events[i - 1], run[i]);
      assert events[..i] == events[..i - 1] + [events[i - 1]];
      HappensKeeps(run[i - 1], events[i - 1], run[i]);
    }
    StorablePair(run[i], run[i].leader.history);
  }

  lemma LeaderGrows(p: Pair, e: Event, q: Pair)
    requires Happens(p, e, q)
    ensures p.leader.history <= q.leader.history
    ensures AllStorableChanges(q.leader.history) ==> AllStorableChanges(p.leader.history)
  {
    hide Next, StorableChange, React, DistinctKeys, IsListing, Seen;
    if e.Lead? { NextGrows(p.leader, e.action, q.leader); }
  }

  lemma StorablePair(p: Pair, history: seq<Mutation>)
    requires PairInv(p) && p.leader.history <= history && AllStorableChanges(history)
    ensures Filterable(p.leader) && Filterable(p.follower)
  {
    hide Inv, Truthful, Remembers, AllStorableChanges, Filterable, AllValid;
    PrefixStorable(p.leader, history);
    PrefixStorable(p.follower, history);
  }

  lemma NoFailure(p: Pair, e: Event, q: Pair)
    requires Happens(p, e, q) && Filterable(p.leader) && Filterable(p.follower)
    ensures e != Lead(LoadFails) && e != Local(LoadFails)
  {
    hide Inv;
  }

  /** The follower's checkpoints so far wrote a delta unless the stack already ended at the log's last position. */
  ghost predicate FollowerReaches(run: seq<Pair>, events: seq<Event>, i: nat)
    requires i <= |events| && i <= |run|
  {
    forall j :: 0 <= j < i && events[j].Local? && events[j].action.Publish? ==> Reaches(run[j].follower)
  }

  /**
   * If no record the leader appended has an indexed value under the empty name, no checkpoint fails to load and the
   * follower recovers exactly if its manifest is accepted, as it is if every checkpoint of the follower has written a
   * delta or found the stack at the log's last position.
   */
  lemma StorableReplicaRecovers(run: seq<Pair>, events: seq<Event>, i: nat)
    requires IsRun(run, events) && i < |run| && AllStorableChanges(run[i].leader.history)
    ensures NoneFails(events[..i])
    ensures Recovers(run[i].follower) <==> Readable(run[i].follower.disk)
    ensures FollowerReaches(run, events, i) ==> Recovers(run[i].follower)
  {
    hide Happens, AllStorableChanges, Recovers, PairInv, Filterable, Readable, FollowerReaches;
    StorableRun(run, events, i);
    FilterableRecovers(run[i].follower);
    if FollowerReaches(run, events, i) { ReachingRun(run, events, i); }
  }

  lemma FilterableRecovers(s: System)
    requires Filterable(s)
    ensures Recovers(s) <==> Readable(s.disk)
  {
    hide Inv, Recovers, FilterLoads, Clean, Replay, ManifestLoads;
    if Readable(s.disk) { SteadyRecovers(s); } else { UnreadableRefused(s); }
  }

  lemma {:induction false} ReachingRun(run: seq<Pair>, events: seq<Event>, i: nat)
    requires IsRun(run, events) && i < |run| && NoneFails(events[..i]) && FollowerReaches(run, events, i)
    ensures Readable(run[i].follower.disk)
    decreases i
  {
    hide PairInv, Happens, Reaches, ManifestLoads;
    if i > 0 {
      assert events[..i][..i - 1] == events[..i - 1] && events[..i][i - 1] == events[i - 1];
      ReachingRun(run, events, i - 1);
      RunHolds(run, events, i - 1);
      assert Happens(run[i - 1], events[i - 1], run[i - 1 + 1]);
      ReachingStep(run[i - 1], events[i - 1], run[i]);
    }
  }

  lemma ReachingStep(p: Pair, e: Event, q: Pair)
    requires PairInv(p) && Happens(p, e, q) && Readable(p.follower.disk)
    requires e.Local? && e.action.Publish? ==> Reaches(p.follower)
    ensures Readable(q.follower.disk)
  {
    hide Inv, Truthful, Remembers, Publishes, Adopts, ManifestLoads, Reaches, React, Seen, IsListing, PutAll, Reopen,
        SnapshotManifest, Fold, Apply, DistinctKeys;
    match e
    case Local(a) =>
      if a.Publish? { PublishedReadable(p.follower, a.delta, a.dead, a.size, a.manifest); }
    case ReceiveSnapshot(sequence, records, size) => SnapshotLoads(sequence, records, size);
    case _ =>
  }

  /* ---------- the window inside a snapshot install ---------- */

  /** The disk after the snapshot's manifest is published and before the log is reset. */
  function Window(d: Disk, sequence: nat, records: seq<Record>, size: nat): Disk
  {
    d.(manifest := Some(SnapshotManifest(sequence, records, size)))
  }

  /**
   * Stopping in that window: the shard reopens exactly if the snapshot is clean, and then loses no record, but the next
   * position is right exactly when the leftover log is empty or already ends at the snapshot's position.
   */
  lemma WindowExact(s: System, history: seq<Mutation>, records: seq<Record>, size: nat)
    requires Inv(s) && s.phase == Idle && Adopts(s, history, records)
    ensures var r := Reopen(Window(s.disk, |history|, records, size));
            && (r.Some? <==> Clean(Replay(history)))
            && (r.Some? ==>
                  && Seen(r.value.layers) == Replay(history)
                  && (r.value.nextLSN == |history| + 1 <==> s.disk.wal == [] || |s.history| == |history|))
  {
    hide Fold, Seen, Sound, PutAll, Replay, LayersOk, StackOk, Install, DistinctKeys, Clean, F.AllStorable;
    DistinctClean(records);
    var d := Window(s.disk, |history|, records, size);
    SnapshotOk(history, records, size);
    SnapshotShows(|history|, records, size);
    DistinctCount(records);
    assert forall i :: 0 <= i < |d.wal| ==> d.wal[i].lsn <= |history|;
    ReplayNothing(Loaded(d), d.wal, |history|);
  }

  function ActAll(m: Live, changes: seq<Mutation>): Live
  {
    if changes == [] then m else Act(ActAll(m, changes[..|changes| - 1]), changes[|changes| - 1])
  }

  ghost predicate SameAt(a: Live, b: Live, k: Key)
  {
    (k in a <==> k in b) && (k in a && k in b ==> a[k] == b[k])
  }

  lemma ActLocal(a: Live, b: Live, mu: Mutation, k: Key)
    ensures k in Touched(mu) || SameAt(a, b, k) ==> SameAt(Act(a, mu), Act(b, mu), k)
    ensures k !in Touched(mu) ==> SameAt(Act(a, mu), a, k)
  {
    match mu
    case Put(records) =>
      PutAllOver(a, records);
      PutAllOver(b, records);
    case Remove(key) =>
  }

  lemma {:induction false} ActAllLocal(a: Live, b: Live, changes: seq<Mutation>, k: Key)
    ensures k in AllTouched(changes) ==> SameAt(ActAll(a, changes), ActAll(b, changes), k)
    ensures k !in AllTouched(changes) ==> SameAt(ActAll(a, changes), a, k) && SameAt(ActAll(b, changes), b, k)
    decreases |changes|
  {
    hide Act, Touched;
    if changes != [] {
      var n := |changes| - 1;
      ActAllLocal(a, b, changes[..n], k);
      ActLocal(ActAll(a, changes[..n]), ActAll(b, changes[..n]), changes[n], k);
      ActLocal(ActAll(b, changes[..n]), ActAll(a, changes[..n]), changes[n], k);
    }
  }

  /** Applying the last changes of a history once more changes nothing. */
  lemma TailAgain(history: seq<Mutation>, from: nat)
    requires from <= |history|
    ensures ActAll(Replay(history), history[from..]) == Replay(history)
  {
    var m := Replay(history[..from]);
    ReplaySplits(history, from);
    var x, y := ActAll(Replay(history), history[from..]), Replay(history);
    forall k ensures SameAt(x, y, k) { ActAllLocal(y, m, history[from..], k); }
    MapsEqual(x, y);
  }

  lemma MapsEqual(x: Live, y: Live)
    requires forall k :: SameAt(x, y, k)
    ensures x == y
  {
    forall k ensures k in x <==> k in y { assert SameAt(x, y, k); }
    forall k | k in x ensures x[k] == y[k] { assert SameAt(x, y, k); }
  }

  lemma {:induction false} ReplaySplits(history: seq<Mutation>, from: nat)
    requires from <= |history|
    ensures Replay(history) == ActAll(Replay(history[..from]), history[from..])
    decreases |history| - from
  {
    if from < |history| {
      var n := |history| - 1;
      ReplaySplits(history[..n], from);
      assert history[..n][..from] == history[..from] && history[..n][from..] == history[from..][..n - from];
    } else {
      assert history[..from] == history;
    }
  }

  /** A change is appended to the log and then applied and remembered. */
  function Received(s: System, mu: Mutation): System
  {
    System(s.disk.(wal := s.disk.wal + [Logged(s.memory.nextLSN, mu)]),
           Memory(Apply(s.memory.layers, mu), s.memory.nextLSN + 1, s.memory.checkpoint,
               s.memory.digests[s.memory.nextLSN := mu]),
           Idle, s.history + [mu])
  }

  function ReceivedAll(s: System, changes: seq<Mutation>): System
  {
    if changes == [] then s else Received(ReceivedAll(s, changes[..|changes| - 1]), changes[|changes| - 1])
  }

  /** The follower's state machine takes `s` to `t` by appending `mu` and applying it. */
  ghost predicate Takes(s: System, mu: Mutation, t: System)
  {
    exists mid :: Next(s, Append(mu), mid) && Next(mid, ApplyAppended(true), t)
  }

  lemma ReceivedTakes(s: System, mu: Mutation)
    requires s.phase == Idle && Valid(mu)
    ensures Takes(s, mu, Received(s, mu))
  {
    hide Apply, Valid;
    var mid := System(s.disk.(wal := s.disk.wal + [Logged(s.memory.nextLSN, mu)]),
                      s.memory.(nextLSN := s.memory.nextLSN + 1), Appended, s.history + [mu]);
    assert Next(s, Append(mu), mid) && Next(mid, ApplyAppended(true), Received(s, mu));
  }

  /** The follower as it comes up after stopping in the window, `known` being whatever history one ascribes to it. */
  function InWindow(d: Disk, m: Memory, known: seq<Mutation>): System
  {
    System(d, m, Idle, known)
  }

  /** `f` has received the first `k` of `changes`, the last of which is at position `top`. */
  ghost predicate Healing(f: System, g: System, start: Live, changes: seq<Mutation>, k: nat, top: nat)
    requires k <= |changes|
  {
    && g.phase == Idle && g.disk.manifest == f.disk.manifest
    && f.memory.nextLSN + |changes| == top + 1 && g.memory.nextLSN == f.memory.nextLSN + k
    && Sound(g.memory.layers) && Seen(g.memory.layers) == ActAll(start, changes[..k])
    && Contiguous(g.disk.wal) && (forall i :: 0 <= i < |g.disk.wal| ==> g.disk.wal[i].lsn <= top)
    && (g.disk.wal != [] ==> 0 < g.disk.wal[|g.disk.wal| - 1].lsn == g.memory.nextLSN - 1)
    && (g.disk.wal == [] ==> g.memory.nextLSN == top + 1)
  }

  lemma HealStep(f: System, g: System, start: Live, changes: seq<Mutation>, k: nat, top: nat)
    requires k < |changes| && Healing(f, g, start, changes, k, top) && Valid(changes[k])
    ensures React(g.memory, g.memory.nextLSN, changes[k]) == Accepted
    ensures Healing(f, Received(g, changes[k]), start, changes, k + 1, top)
  {
    hide Sound, Seen, Apply, Act, Valid;
    ApplySeen(g.memory.layers, changes[k]);
    assert changes[..k + 1][..k] == changes[..k];
  }

  lemma {:induction false} HealAll(f: System, start: Live, changes: seq<Mutation>, k: nat, top: nat)
    requires k <= |changes| && Healing(f, f, start, changes, 0, top)
    requires AllValid(changes)
    ensures Healing(f, ReceivedAll(f, changes[..k]), start, changes, k, top)
    decreases k
  {
    hide Healing, Valid, Received;
    if k > 0 {
      HealAll(f, start, changes, k - 1, top);
      HealStep(f, ReceivedAll(f, changes[..k - 1]), start, changes, k - 1, top);
      assert changes[..k][..k - 1] == changes[..k - 1];
    } else {
      assert changes[..0] == [];
    }
  }

  /** A log that ends at the manifest's position or below adds nothing to the manifest. */
  lemma HealedReopens(d: Disk, history: seq<Mutation>, records: seq<Record>, size: nat)
    requires d.manifest == Some(SnapshotManifest(|history|, records, size))
    requires DistinctKeys(records) && PutAll(map[], records) == Replay(history)
    requires Contiguous(d.wal) && (forall i :: 0 <= i < |d.wal| ==> d.wal[i].lsn <= |history|)
    requires d.wal != [] ==> 0 < d.wal[|d.wal| - 1].lsn
    ensures var r := Reopen(d);
            && (r.Some? <==> Clean(Replay(history)))
            && (r.Some? ==>
                  && Sound(r.value.layers) && Seen(r.value.layers) == Replay(history)
                  && r.value.nextLSN == (if d.wal == [] then |history| else d.wal[|d.wal| - 1].lsn) + 1)
  {
    hide Fold, Seen, Sound, PutAll, Replay, Install, DistinctKeys, Contiguous, StackOk, Clean, F.AllStorable;
    DistinctClean(records);
    SnapshotOk(history, records, size);
    SnapshotShows(|history|, records, size);
    DistinctCount(records);
    ReplayNothing(Loaded(d), d.wal, |history|);
  }

  lemma WindowLog(s: System, top: nat)
    requires Inv(s) && s.phase == Idle && top + 1 >= s.memory.nextLSN
    ensures Contiguous(s.disk.wal) && forall i :: 0 <= i < |s.disk.wal| ==> s.disk.wal[i].lsn <= top
    ensures s.disk.wal != [] ==> 0 < s.disk.wal[|s.disk.wal| - 1].lsn == |s.history| <= top
  {
    hide Seen, Sound, Replay, LayersOk, StackOk, Valid;
  }

  /** `f`, having received the changes from its position up to `k`, accepts the next one and takes it. */
  ghost predicate TakesNext(f: System, history: seq<Mutation>, k: nat)
    requires 0 < f.memory.nextLSN <= k + 1 <= |history|
  {
    var from := f.memory.nextLSN - 1;
    var g := ReceivedAll(f, history[from..k]);
    React(g.memory, k + 1, history[k]) == Accepted && Takes(g, history[k], ReceivedAll(f, history[from..k + 1]))
  }

  /** `g` shows the replay of `history`, expects the position after it, and would reopen to the same. */
  ghost predicate CaughtUp(g: System, history: seq<Mutation>)
  {
    && Seen(g.memory.layers) == Replay(history) && g.memory.nextLSN == |history| + 1
    && Reopen(g.disk).Some? && Seen(Reopen(g.disk).value.layers) == Replay(history)
    && Reopen(g.disk).value.nextLSN == |history| + 1
  }

  /**
   * A follower reopened in the window, as it can be exactly if the snapshot is clean, expects some position up to the
   * snapshot's. It accepts every change of the leader from there on, and once it has received those up to the
   * snapshot it has caught up.
   */
  lemma WindowHeals(s: System, history: seq<Mutation>, records: seq<Record>, size: nat, known: seq<Mutation>, k: nat)
    requires Inv(s) && s.phase == Idle && Adopts(s, history, records) && AllValid(history)
    ensures var d := Window(s.disk, |history|, records, size);
            && (Reopen(d).Some? <==> Clean(Replay(history)))
            && (Reopen(d).Some? ==>
                  && 0 < Reopen(d).value.nextLSN <= |history| + 1
                  && var f := InWindow(d, Reopen(d).value, known);
                  && (f.memory.nextLSN <= k + 1 <= |history| ==> TakesNext(f, history, k))
                  && CaughtUp(ReceivedAll(f, history[f.memory.nextLSN - 1..]), history))
  {
    hide Inv, Seen, Sound, PutAll, Replay, DistinctKeys, Reopen, Contiguous, ReceivedAll, SnapshotManifest, AllValid,
        Healing, TakesNext, CaughtUp, Clean;
    var d := Window(s.disk, |history|, records, size);
    WindowLog(s, |history|);
    HealedReopens(d, history, records, size);
    if Reopen(d).Some? {
      var f := InWindow(d, Reopen(d).value, known);
      HealStarts(f, history, history[f.memory.nextLSN - 1..]);
      HealsFrom(f, history, records, size);
      if f.memory.nextLSN <= k + 1 <= |history| { HealsThrough(f, history, k); }
    }
  }

  lemma HealsFrom(f: System, history: seq<Mutation>, records: seq<Record>, size: nat)
    requires 0 < f.memory.nextLSN <= |history| + 1 && f.disk.manifest
             == Some(SnapshotManifest(|history|, records, size))
    requires DistinctKeys(records) && PutAll(map[], records) == Replay(history) && Clean(Replay(history))
    requires AllValid(history)
    requires Healing(f, f, Replay(history), history[f.memory.nextLSN - 1..], 0, |history|)
    ensures CaughtUp(ReceivedAll(f, history[f.memory.nextLSN - 1..]), history)
  {
    hide Seen, Sound, PutAll, Replay, DistinctKeys, Reopen, Contiguous, ReceivedAll, Healing, SnapshotManifest, Valid,
        Clean;
    var from := f.memory.nextLSN - 1;
    var changes := history[from..];
    HealAll(f, Replay(history), changes, |changes|, |history|);
    assert changes[..|changes|] == changes;
    TailAgain(history, from);
    var g := ReceivedAll(f, changes);
    HealEnds(f, g, Replay(history), changes, |history|);
    HealedReopens(g.disk, history, records, size);
  }

  lemma HealsThrough(f: System, history: seq<Mutation>, k: nat)
    requires 0 < f.memory.nextLSN <= k + 1 <= |history|
    requires AllValid(history)
    requires Healing(f, f, Replay(history), history[f.memory.nextLSN - 1..], 0, |history|)
    ensures TakesNext(f, history, k)
  {
    hide Replay, Received, Healing, Valid, React, Takes;
    var from := f.memory.nextLSN - 1;
    var changes := history[from..];
    HealAll(f, Replay(history), changes, k - from, |history|);
    assert changes[..k - from] == history[from..k];
    HealStep(f, ReceivedAll(f, changes[..k - from]), Replay(history), changes, k - from, |history|);
    HealPosition(f, ReceivedAll(f, changes[..k - from]), Replay(history), changes, k - from, |history|);
    ReceivedTakes(ReceivedAll(f, history[from..k]), history[k]);
    assert history[from..k + 1][..k - from] == history[from..k] && history[from..k + 1][k - from] == history[k];
  }

  lemma HealStarts(f: System, history: seq<Mutation>, changes: seq<Mutation>)
    requires f.phase == Idle && Sound(f.memory.layers) && Seen(f.memory.layers) == Replay(history)
    requires f.memory.nextLSN + |changes| == |history| + 1
    requires Contiguous(f.disk.wal) && (forall i :: 0 <= i < |f.disk.wal| ==> f.disk.wal[i].lsn <= |history|)
    requires f.disk.wal != [] ==> 0 < f.disk.wal[|f.disk.wal| - 1].lsn == f.memory.nextLSN - 1
    requires f.disk.wal == [] ==> f.memory.nextLSN == |history| + 1
    ensures Healing(f, f, Replay(history), changes, 0, |history|)
  {
    hide Sound, Seen, Replay, Contiguous;
    assert changes[..0] == [];
  }

  lemma HealPosition(f: System, g: System, start: Live, changes: seq<Mutation>, k: nat, top: nat)
    requires k <= |changes| && Healing(f, g, start, changes, k, top)
    ensures g.memory.nextLSN == f.memory.nextLSN + k && g.phase == Idle
  {
    hide Sound, Seen, Contiguous;
  }

  lemma HealEnds(f: System, g: System, start: Live, changes: seq<Mutation>, top: nat)
    requires Healing(f, g, start, changes, |changes|, top)
    ensures g.disk.manifest == f.disk.manifest && g.memory.nextLSN == top + 1
    ensures Seen(g.memory.layers) == ActAll(start, changes)
    ensures Contiguous(g.disk.wal) && (forall i :: 0 <= i < |g.disk.wal| ==> g.disk.wal[i].lsn <= top)
    ensures g.disk.wal != [] ==> 0 < g.disk.wal[|g.disk.wal| - 1].lsn == top
  {
    hide Sound, Seen, Contiguous, ActAll;
    assert changes[..|changes|] == changes;
  }

  /**
   * A run that ends in such a window: one change received and applied, then a snapshot of position 2 published and the
   * process stopped; the reopened follower expects position 2 again.
   */
  lemma WindowUnderstates()
      returns (run: seq<System>, actions: seq<Action>, history: seq<Mutation>, records: seq<Record>)
    ensures Recovery.IsRun(run, actions)
    ensures var s := run[|run| - 1];
            && s.phase == Idle && Adopts(s, history, records)
            && Reopen(Window(s.disk, |history|, records, 0)).Some?
            && Reopen(Window(s.disk, |history|, records, 0)).value.nextLSN == 2 == |history|
  {
    hide Recovery.IsRun, Inv, Reopen, Replay, PutAll, Contiguous, Seen, Sound, DistinctKeys;
    var put, gone := Put([Record("a", 1, "", map[])]), Remove("a");
    history, records := [put, gone], [];
    run, actions := OneChange(put);
    RunKeeps(run, actions, 2);
    ComesAndGoes(put, gone);
    WindowLog(run[2], 2);
    HealedReopens(Window(run[2].disk, 2, [], 0), history, [], 0);
  }

  lemma OneChange(put: Mutation) returns (run: seq<System>, actions: seq<Action>)
    requires Valid(put)
    ensures Recovery.IsRun(run, actions) && |run| == 3 && Unbroken(actions[..2])
    ensures run[2].phase == Idle && run[2].disk == Disk(None, [Logged(1, put)]) && run[2].memory.nextLSN == 2
            && run[2].history == [put]
  {
    hide Apply, Valid;
    run, actions := [Fresh(), System(Disk(None, [Logged(1, put)]), Memory(EMPTY, 2, 0, map[]), Appended, [put])],
        [Append(put), ApplyAppended(true)];
    assert [] + [put] == [put] && [] + [Logged(1, put)] == [Logged(1, put)];
    assert Next(run[0], Append(put), run[1]);
    var t := run[1].(memory := Memory(Apply(EMPTY, put), 2, 0, map[1 := put]), phase := Idle);
    assert Next(run[1], ApplyAppended(true), t);
    run := run + [t];
    NeverFailed(actions[..2]);
  }

  lemma ComesAndGoes(put: Mutation, gone: Mutation)
    requires put == Put([Record("a", 1, "", map[])]) && gone == Remove("a")
    ensures PutAll(map[], []) == Replay([put, gone]) && DistinctKeys([]) && Valid(put) && Valid(gone)
    ensures Clean(Replay([put, gone]))
  {
    var r := Record("a", 1, "", map[]);
    assert [put, gone][..1] == [put] && [put][..0] == [] && [r][..0] == [];
    assert Replay([put]) == Act(Replay([]), put) == PutAll(map[], [r]) == map["a" := r];
    assert Replay([put, gone]) == Act(Replay([put]), gone) == map["a" := r] - {"a"};
  }
}
