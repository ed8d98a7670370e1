/**
 * Runs after which a shard does not open again. A checkpoint publishes its manifest and resets the log before it knows
 * whether the manifest and the filter file can be read back.
 */
module RecoveryFailure {
  import opened Collections
  import opened Records
  import opened Segments
  import opened ShardLayers
  import opened Recovery
  import F = Filters

  lemma Extend(run: seq<System>, actions: seq<Action>, a: Action, t: System)
    requires IsRun(run, actions) && Next(run[|run| - 1], a, t)
    ensures IsRun(run + [t], actions + [a])
  {
    hide Next;
  }

  /** The memory after the record was put, and after it was deleted again: no base, so no tombstone either. */
  lemma PutThenGone(r: Record)
    ensures Apply(EMPTY, Put([r])) == Layers(map[r.key := r], None, {}, 1)
    ensures Apply(Layers(map[r.key := r], None, {}, 1), Remove(r.key)) == EMPTY
    ensures Seen(Layers(map[r.key := r], None, {}, 1)) == map[r.key := r] && Seen(EMPTY) == map[]
  {
    assert [r][..0] == [];
    assert PutLayers(EMPTY, [r]) == Upsert(PutLayers(EMPTY, []), r);
    assert map[r.key := r] - {r.key} == map[];
  }

  lemma Replays(r: Record)
    ensures Replay([Put([r])]) == map[r.key := r] && Replay([Put([r]), Remove(r.key)]) == map[]
  {
    var put, gone := Put([r]), Remove(r.key);
    assert [put, gone][..1] == [put] && [put][..0] == [] && [r][..0] == [];
    assert Replay([put]) == Act(Replay([]), put) == PutAll(map[], [r]) == map[r.key := r];
    assert Replay([put, gone]) == Act(Replay([put]), gone) == map[r.key := r] - {r.key};
  }

  lemma OneListed(r: Record)
    ensures IsListing(map[r.key := r], [r]) && MetadataOf([r]) == [r.metadata]
    ensures IsListing(map[], []) && MetadataOf([]) == []
  {
    assert [r][0].key == r.key;
  }

  lemma OneFilter(r: Record)
    ensures FilterOf(map[r.key := r], [r.metadata]) && FilterOf(map[], [])
  {
    hide IsListing;
    OneListed(r);
  }

  lemma NotCompacted(segments: seq<Segment>, sequence: nat)
    ensures Compacted(segments, sequence, segments)
  {
  }

  function First(r: Record): Segment
  {
    Segment(Delta(1), [r], [], 1, 0)
  }

  lemma FirstShows(r: Record)
    ensures Fold(map[], [First(r)]) == map[r.key := r] && |Fold(map[], [First(r)])| == 1
  {
    OneListed(r);
    ListingPut(map[r.key := r], [r]);
    BundleShows(First(r));
  }

  function Memory1(r: Record): Memory
  {
    Memory(Layers(map[r.key := r], None, {}, 1), 2, 0, map[])
  }

  /** The manifests of the checkpoint with the record and of the one after its deletion. */
  function Manifest(r: Record, deleted: bool): ShardManifest
  {
    if deleted then ShardManifest(3, [First(r)], 2, 0, []) else ShardManifest(3, [First(r)], 1, 1, [r.metadata])
  }

  /** One record is put: wherever the process stops so far, it recovers. */
  lemma OnePut(r: Record) returns (run: seq<System>, actions: seq<Action>)
    ensures IsRun(run, actions) && |run| == 3 && actions == [Append(Put([r])), ApplyAppended(false)]
    ensures forall i :: 0 <= i < 3 ==> Recovers(run[i])
    ensures run[2] == System(Disk(None, [Logged(1, Put([r]))]), Memory1(r), Idle, [Put([r])])
  {
    hide Apply, Recovers, Seen;
    var put := Put([r]);
    PutThenGone(r);
    var s1 := System(Disk(None, [Logged(1, put)]), Memory(EMPTY, 2, 0, map[]), Appended, [put]);
    var s2 := s1.(memory := Memory1(r), phase := Idle);
    assert [] + [put] == [put] && [] + [Logged(1, put)] == [Logged(1, put)];
    assert Next(Fresh(), Append(put), s1) && Next(s1, ApplyAppended(false), s2);
    run, actions := [Fresh(), s1, s2], [Append(put), ApplyAppended(false)];
    assert forall i :: 0 <= i < |actions| ==> PublishesWell(run[i], actions[i]);
    RecoveryIff(run, actions);
  }

  lemma FirstPublishes(r: Record)
    ensures Publishes(System(Disk(None, [Logged(1, Put([r]))]), Memory1(r), Idle, [Put([r])]), [r], [], 0,
        Manifest(r, false))
  {
    hide Seen, IsListing, Compacted, FilterOf, MetadataOf;
    OneFilter(r);
    NotCompacted([First(r)], 1);
    PutThenGone(r);
    OneListed(r);
    ListingPut(map[r.key := r], [r]);
    assert Elements<Key>([]) == {} && [] + [First(r)] == [First(r)];
  }

  /** Put one record with an indexed value under the empty name, then checkpoint: the shard does not open again. */
  lemma EmptyNameLost(r: Record) returns (run: seq<System>, actions: seq<Action>)
    requires !F.Storable(r.metadata)
    ensures IsRun(run, actions) && |run| == 4 && |actions| == 3
    ensures actions[..2] == [Append(Put([r])), ApplyAppended(false)] && actions[2].Publish?
    ensures (forall i :: 0 <= i < 3 ==> Recovers(run[i])) && Reopen(run[3].disk).None?
    ensures run[3].disk == Disk(Some(Manifest(r, false)), [Logged(1, Put([r]))])
    ensures run[3] == System(run[3].disk, Memory1(r), Published, [Put([r])])
  {
    hide IsRun, Publishes, Recovers;
    run, actions := OnePut(r);
    var s, a := run[2], Publish([r], [], 0, Manifest(r, false));
    FirstPublishes(r);
    var t := s.(disk := s.disk.(manifest := Some(Manifest(r, false))), phase := Published);
    Extend(run, actions, a, t);
    run, actions := run + [t], actions + [a];
    assert !F.Storable(Manifest(r, false).filter[0]);
  }

  lemma SecondPublishes(r: Record, wal: seq<Logged>, history: seq<Mutation>)
    ensures Publishes(System(Disk(Some(Manifest(r, false)), wal), Memory(EMPTY, 3, 0, map[]), Idle, history), [], [], 0,
        Manifest(r, true))
  {
    hide Seen, IsListing, Compacted, FilterOf, MetadataOf;
    OneFilter(r);
    NotCompacted([First(r)], 2);
    PutThenGone(r);
    OneListed(r);
    assert Elements<Key>([]) == {} && [First(r)] + [] == [First(r)];
  }

  /** The failed checkpoint returns and the record is deleted. */
  lemma FailThenDelete(r: Record) returns (run: seq<System>, actions: seq<Action>)
    requires !F.Storable(r.metadata)
    ensures IsRun(run, actions) && |run| == 8 && |actions| == 7
    ensures actions[3..] == [Reset, LoadFails, Append(Remove(r.key)), ApplyAppended(false)]
    ensures run[7] == System(Disk(Some(Manifest(r, false)), [Logged(2, Remove(r.key))]), Memory(EMPTY, 3, 0, map[]),
            Idle,
        [Put([r]), Remove(r.key)])
  {
    hide IsRun, Publishes, Recovers, Apply, Reopen;
    run, actions := EmptyNameLost(r);
    PutThenGone(r);
    var put, gone := Put([r]), Remove(r.key);
    var s4 := run[3].(disk := Disk(Some(Manifest(r, false)), []), phase := Cleared);
    Extend(run, actions, Reset, s4);
    var s5 := s4.(phase := Idle);
    assert !F.Storable(Manifest(r, false).filter[0]);
    Extend(run + [s4], actions + [Reset], LoadFails, s5);
    var s6 := System(Disk(Some(Manifest(r, false)), [Logged(2, gone)]), Memory1(r).(nextLSN := 3), Appended,
        [put, gone]);
    assert [put] + [gone] == [put, gone] && [] + [Logged(2, gone)] == [Logged(2, gone)];
    Extend(run + [s4] + [s5], actions + [Reset] + [LoadFails], Append(gone), s6);
    var s7 := s6.(memory := Memory(EMPTY, 3, 0, map[]), phase := Idle);
    Extend(run + [s4] + [s5] + [s6], actions + [Reset] + [LoadFails] + [Append(gone)], ApplyAppended(false), s7);
    run := run + [s4] + [s5] + [s6] + [s7];
    actions := actions + [Reset] + [LoadFails] + [Append(gone)] + [ApplyAppended(false)];
    assert actions[3..] == [Reset, LoadFails, Append(gone), ApplyAppended(false)];
  }

  /**
   * The run goes on: the failed checkpoint returns, the record is deleted, and another checkpoint is taken. The delta
   * of the failed one is in the stack but not in memory's base, so no tombstone and no delta is written: the shard is
   * again refused, now because no segment is at the manifest's position, and the checkpoint that succeeds brings the
   * deleted record back into memory.
   */
  lemma DeletedComesBack(r: Record) returns (run: seq<System>, actions: seq<Action>)
    requires !F.Storable(r.metadata)
    ensures IsRun(run, actions) && |run| == 11 && |actions| == 10
    ensures actions[3..7] == [Reset, LoadFails, Append(Remove(r.key)), ApplyAppended(false)]
    ensures actions[7].Publish? && actions[8..] == [Reset, InstallBase]
    ensures var s := run[10];
            && s.phase == Idle && s.history == [Put([r]), Remove(r.key)] && Replay(s.history) == map[]
            && Seen(s.memory.layers) == map[r.key := r] && Reopen(s.disk).None?
  {
    hide IsRun, Publishes, Recovers, Apply, Fold, Replay, Seen;
    run, actions := FailThenDelete(r);
    var s, m, a := run[7], Manifest(r, true), Publish([], [], 0, Manifest(r, true));
    SecondPublishes(r, s.disk.wal, s.history);
    var s8 := s.(disk := s.disk.(manifest := Some(m)), phase := Published);
    Extend(run, actions, a, s8);
    var s9 := s8.(disk := Disk(Some(m), []), phase := Cleared);
    Extend(run + [s8], actions + [a], Reset, s9);
    FirstShows(r);
    var s10 := s9.(memory := Memory(Install(map[r.key := r]), 3, 2, map[]), phase := Idle);
    Extend(run + [s8] + [s9], actions + [a] + [Reset], InstallBase, s10);
    run, actions := run + [s8] + [s9] + [s10], actions + [a] + [Reset] + [InstallBase];
    assert actions[3..7] == [Reset, LoadFails, Append(Remove(r.key)), ApplyAppended(false)];
    assert actions[8..] == [Reset, InstallBase];
    Replays(r);
    InstallSees(map[r.key := r]);
  }

  lemma InstallSees(m: Live)
    ensures Seen(Install(m)) == m
  {
    assert m - {} == m;
  }

  /* ---------- records that come and go ---------- */

  /** One record is put and checkpointed. */
  lemma OneSettled(r: Record) returns (run: seq<System>, actions: seq<Action>)
    requires F.Storable(r.metadata)
    ensures IsRun(run, actions) && |run| == 6
    ensures actions == [Append(Put([r])), ApplyAppended(false), Publish([r], [], 0, Manifest(r, false)), Reset,
            InstallBase]
    ensures run[2].disk.manifest.None?
    ensures run[5] == System(Disk(Some(Manifest(r, false)), []), Memory(Install(map[r.key := r]), 2, 1, map[]), Idle,
        [Put([r])])
  {
    hide IsRun, Publishes, Recovers, Fold;
    run, actions := OnePut(r);
    var m, a := Manifest(r, false), Publish([r], [], 0, Manifest(r, false));
    FirstPublishes(r);
    var s3 := run[2].(disk := run[2].disk.(manifest := Some(m)), phase := Published);
    Extend(run, actions, a, s3);
    var s4 := s3.(disk := Disk(Some(m), []), phase := Cleared);
    Extend(run + [s3], actions + [a], Reset, s4);
    FirstShows(r);
    var s5 := s4.(memory := Memory(Install(map[r.key := r]), 2, 1, map[]), phase := Idle);
    Extend(run + [s3] + [s4], actions + [a] + [Reset], InstallBase, s5);
    run, actions := run + [s3] + [s4] + [s5], actions + [a] + [Reset] + [InstallBase];
  }

  /** Over a base without it, a record that is put and deleted leaves nothing behind. */
  lemma NothingLeft(r: Record, q: Record)
    requires r.key != q.key
    ensures Apply(Install(map[r.key := r]), Put([q])) == Layers(map[q.key := q], Some(map[r.key := r]), {}, 2)
    ensures Apply(Layers(map[q.key := q], Some(map[r.key := r]), {}, 2), Remove(q.key)) == Install(map[r.key := r])
  {
    var l := Install(map[r.key := r]);
    assert |map[r.key := r]| == 1 by { FirstShows(r); }
    assert [q][..0] == [];
    assert PutLayers(l, [q]) == Upsert(PutLayers(l, []), q);
    assert map[q.key := q] - {q.key} == map[];
  }

  /** Another record is put and deleted; all of it is in the log, none of it in memory. */
  lemma PutAndGone(r: Record, q: Record) returns (run: seq<System>, actions: seq<Action>)
    requires F.Storable(r.metadata) && r.key != q.key
    ensures IsRun(run, actions) && |run| == 10 && |actions| == 9
    ensures actions[..5] ==
        [Append(Put([r])), ApplyAppended(false), Publish([r], [], 0, Manifest(r, false)), Reset, InstallBase]
    ensures actions[5..] == [Append(Put([q])), ApplyAppended(false), Append(Remove(q.key)), ApplyAppended(false)]
    ensures run[2].disk.manifest.None?
    ensures var wal := [Logged(2, Put([q])), Logged(3, Remove(q.key))];
            run[9] == System(Disk(Some(Manifest(r, false)), wal), Memory(Install(map[r.key := r]), 4, 1, map[]), Idle,
                [Put([r]), Put([q]), Remove(q.key)])
  {
    hide IsRun, Apply, Reopen;
    run, actions := OneSettled(r);
    NothingLeft(r, q);
    var put, gone, m := Put([q]), Remove(q.key), Manifest(r, false);
    var s6 := System(Disk(Some(m), [Logged(2, put)]), Memory(Install(map[r.key := r]), 3, 1, map[]), Appended,
        [Put([r]), put]);
    assert [Put([r])] + [put] == [Put([r]), put] && [] + [Logged(2, put)] == [Logged(2, put)];
    Extend(run, actions, Append(put), s6);
    var s7 := s6.(memory := s6.memory.(layers := Layers(map[q.key := q], Some(map[r.key := r]), {}, 2)), phase := Idle);
    Extend(run + [s6], actions + [Append(put)], ApplyAppended(false), s7);
    var s8 := System(Disk(Some(m), [Logged(2, put), Logged(3, gone)]), s7.memory.(nextLSN := 4), Appended,
        [Put([r]), put, gone]);
    assert [Put([r]), put] + [gone] == [Put([r]), put, gone];
    assert [Logged(2, put)] + [Logged(3, gone)] == [Logged(2, put), Logged(3, gone)];
    Extend(run + [s6] + [s7], actions + [Append(put)] + [ApplyAppended(false)], Append(gone), s8);
    var s9 := s8.(memory := Memory(Install(map[r.key := r]), 4, 1, map[]), phase := Idle);
    Extend(run + [s6] + [s7] + [s8], actions + [Append(put)] + [ApplyAppended(false)] + [Append(gone)],
        ApplyAppended(false), s9);
    run := run + [s6] + [s7] + [s8] + [s9];
    actions := actions + [Append(put)] + [ApplyAppended(false)] + [Append(gone)] + [ApplyAppended(false)];
    assert actions[5..] == [Append(put), ApplyAppended(false), Append(gone), ApplyAppended(false)];
  }

  function Short(r: Record): ShardManifest
  {
    ShardManifest(3, [First(r)], 3, 1, [r.metadata])
  }

  lemma ShortPublishes(r: Record, wal: seq<Logged>, history: seq<Mutation>)
    ensures Publishes(System(Disk(Some(Manifest(r, false)), wal), Memory(Install(map[r.key := r]), 4, 1, map[]), Idle,
        history), [], [], 0, Short(r))
  {
    hide Seen, IsListing, Compacted, FilterOf, MetadataOf;
    OneFilter(r);
    NotCompacted([First(r)], 3);
    OneListed(r);
    InstallSees(map[r.key := r]);
    ListingPut(map[r.key := r], [r]);
    assert Elements<Key>([]) == {} && [First(r)] + [] == [First(r)];
  }

  /**
   * Ordinary records only: one is put and checkpointed, another is put and deleted, and a checkpoint is taken. It has
   * nothing to write, so its manifest is at a position that no segment has. The checkpoint succeeds and memory is
   * right, but from its publication on the shard is refused, although every state before recovers.
   */
  lemma CameAndWent(r: Record, q: Record) returns (run: seq<System>, actions: seq<Action>)
    requires F.Storable(r.metadata) && F.Storable(q.metadata) && r.key != q.key
    ensures IsRun(run, actions) && |run| == 13 && |actions| == 12
    ensures actions[5..9] == [Append(Put([q])), ApplyAppended(false), Append(Remove(q.key)), ApplyAppended(false)]
    ensures actions[9].Publish? && actions[10..] == [Reset, InstallBase]
    ensures forall j :: 0 <= j < |actions| ==> TakesClean(actions[j])
    ensures (forall i :: 0 <= i < 10 ==> Recovers(run[i])) && forall i :: 10 <= i < 13 ==> Reopen(run[i].disk).None?
    ensures var s := run[12];
            s.phase == Idle && Seen(s.memory.layers) == map[r.key := r] && s.disk == Disk(Some(Short(r)), [])
  {
    hide IsRun, Publishes, Recovers, Apply, Fold, Replay, Seen, Reopen, TakesClean;
    run, actions := PutAndGone(r, q);
    AllTaken(r, q, actions);
    RecoversSoFar(r, q, run, actions);
    var s, m, a := run[9], Short(r), Publish([], [], 0, Short(r));
    ShortPublishes(r, s.disk.wal, s.history);
    var s10 := s.(disk := s.disk.(manifest := Some(m)), phase := Published);
    Extend(run, actions, a, s10);
    var s11 := s10.(disk := Disk(Some(m), []), phase := Cleared);
    Extend(run + [s10], actions + [a], Reset, s11);
    FirstShows(r);
    StorableOne(r);
    var s12 := s11.(memory := Memory(Install(map[r.key := r]), 4, 3, map[]), phase := Idle);
    Extend(run + [s10] + [s11], actions + [a] + [Reset], InstallBase, s12);
    run, actions := run + [s10] + [s11] + [s12], actions + [a] + [Reset] + [InstallBase];
    assert actions[5..9] == [Append(Put([q])), ApplyAppended(false), Append(Remove(q.key)), ApplyAppended(false)];
    assert actions[10..] == [Reset, InstallBase];
    PlainSteps();
    forall i | 10 <= i < 13 ensures Reopen(run[i].disk).None? { UnreadableRefused(run[i]); }
    InstallSees(map[r.key := r]);
  }

  lemma PlainSteps()
    ensures TakesClean(Reset) && TakesClean(InstallBase)
    ensures forall delta, dead, size, m :: TakesClean(Publish(delta, dead, size, m))
  {
  }

  lemma StorableOne(r: Record)
    requires F.Storable(r.metadata)
    ensures F.AllStorable([r.metadata]) && F.AllStorable(MetadataOf([r]))
  {
  }

  lemma AllTaken(r: Record, q: Record, actions: seq<Action>)
    requires F.Storable(r.metadata) && F.Storable(q.metadata) && |actions| == 9
    requires actions[..5] ==
        [Append(Put([r])), ApplyAppended(false), Publish([r], [], 0, Manifest(r, false)), Reset, InstallBase]
    requires actions[5..] == [Append(Put([q])), ApplyAppended(false), Append(Remove(q.key)), ApplyAppended(false)]
    ensures forall j :: 0 <= j < 9 ==> TakesClean(actions[j])
  {
    StorableOne(r);
    StorableOne(q);
    forall j | 0 <= j < 9 ensures TakesClean(actions[j])
    {
      assert j < 5 ==> actions[j] == actions[..5][j];
      assert j >= 5 ==> actions[j] == actions[5..][j - 5];
    }
  }

  lemma RecoversSoFar(r: Record, q: Record, run: seq<System>, actions: seq<Action>)
    requires IsRun(run, actions) && |run| == 10 && |actions| == 9 && run[2].disk.manifest.None?
    requires forall j :: 0 <= j < 9 ==> TakesClean(actions[j])
    requires actions[..5] ==
        [Append(Put([r])), ApplyAppended(false), Publish([r], [], 0, Manifest(r, false)), Reset, InstallBase]
    requires actions[5..] == [Append(Put([q])), ApplyAppended(false), Append(Remove(q.key)), ApplyAppended(false)]
    ensures forall i :: 0 <= i < 10 ==> Recovers(run[i])
  {
    hide IsRun, Recovers, TakesClean, Reaches;
    forall j | 0 <= j < 9 ensures actions[j].Publish? ==> Reaches(run[j])
    {
      assert j < 5 ==> actions[j] == actions[..5][j];
      assert j >= 5 ==> actions[j] == actions[5..][j - 5];
      FirstReaches(run[2]);
    }
    CleanRecordsRecover(run, actions);
  }
}
