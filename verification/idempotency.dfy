/**
 * Idempotent batches of one shard: a durable ledger entry is reserved, its batch appended to the log, then completed.
 */
module Idempotency {
  import opened Collections
  import opened Records
  import opened ShardLayers
  import opened Recovery
  import opened Engine

  predicate Letter(c: char)
  {
    'a' <= c <= 'z' || 'A' <= c <= 'Z' || '0' <= c <= '9'
  }

  predicate ValidKey(k: string)
  {
    && 1 <= |k| <= 128 && Letter(k[0])
    && forall i :: 0 < i < |k| ==> Letter(k[i]) || k[i] in "._:-"
  }

  /** The digest of a request is taken to identify it, so the request itself is kept. */
  datatype LedgerEntry = LedgerEntry(request: seq<Record>, records: seq<Record>, completed: bool, sequence: nat)

  /** A log record and the key it was written for. */
  datatype Tagged = Tagged(key: Option<string>, mutation: Mutation)

  datatype Answer = Answer(key: string, request: seq<Record>, records: seq<Record>, sequence: nat)

  datatype Stage = Ready | Committing(key: string) | Written(key: string)

  datatype Desk = Desk(ledger: map<string, LedgerEntry>, durable: map<string, LedgerEntry>, log: seq<Tagged>,
      stage: Stage, answers: seq<Answer>)

  const START: Desk := Desk(map[], map[], [], Ready, [])

  datatype Act =
    | Reserve(key: string, request: seq<Record>, prepared: seq<Record>)
    | Resume(key: string, request: seq<Record>)
    | Write
    | Complete
    | Repeat(key: string, request: seq<Record>)
    | Other(mutation: Mutation)
    | Stop

  function Completed(d: Desk, key: string): LedgerEntry
    requires key in d.ledger
  {
    d.ledger[key].(completed := true, sequence := |d.log|)
  }

  ghost predicate Moves(d: Desk, a: Act, e: Desk)
  {
    match a
    case Reserve(key, request, prepared) =>
      && d.stage == Ready && key !in d.ledger && 0 < |prepared| <= MAX_BATCH
      && var ledger := d.ledger[key := LedgerEntry(request, prepared, false, 0)];
         e == d.(ledger := ledger, durable := ledger, stage := Committing(key))
    case Resume(key, request) =>
      && d.stage == Ready && key in d.ledger && d.ledger[key].request == request && !d.ledger[key].completed
      && e == d.(stage := Committing(key))
    case Write =>
      && d.stage.Committing? && d.stage.key in d.ledger
      && e == d.(log := d.log + [Tagged(Some(d.stage.key), Put(d.ledger[d.stage.key].records))], stage :=
         Written(d.stage.key))
    case Complete =>
      && d.stage.Written? && d.stage.key in d.ledger
      && var done := Completed(d, d.stage.key); var ledger := d.ledger[d.stage.key := done];
         e == d.(ledger := ledger, durable := ledger, stage := Ready,
                 answers := d.answers + [Answer(d.stage.key, done.request, done.records, done.sequence)])
    case Repeat(key, request) =>
      && d.stage == Ready && key in d.ledger && d.ledger[key].request == request && d.ledger[key].completed
      && e == d.(answers := d.answers + [Answer(key, request, d.ledger[key].records, d.ledger[key].sequence)])
    case Other(mu) =>
      d.stage == Ready && e == d.(log := d.log + [Tagged(None, mu)])
    case Stop =>
      e == d.(ledger := d.durable, stage := Ready)
  }

  ghost predicate IsHistory(desks: seq<Desk>, acts: seq<Act>)
  {
    && |desks| == |acts| + 1 && desks[0] == START
    && forall i :: 0 <= i < |acts| ==> Moves(desks[i], acts[i], desks[i + 1])
  }

  /* ---------- the invariant ---------- */

  ghost predicate EntryOk(d: Desk, key: string)
    requires key in d.ledger
  {
    var e := d.ledger[key];
    && 0 < |e.records| <= MAX_BATCH
    && (e.completed ==> 0 < e.sequence <= |d.log| && d.log[e.sequence - 1] == Tagged(Some(key), Put(e.records)))
  }

  ghost predicate TagOk(d: Desk, t: Tagged)
  {
    t.key.Some? ==> t.key.value in d.ledger && t.mutation == Put(d.ledger[t.key.value].records)
  }

  ghost predicate AnswerOk(d: Desk, a: Answer)
  {
    a.key in d.ledger && d.ledger[a.key] == LedgerEntry(a.request, a.records, true, a.sequence)
  }

  ghost predicate DeskInv(d: Desk)
  {
    && d.ledger == d.durable
    && (forall k :: k in d.ledger ==> EntryOk(d, k))
    && (forall i :: 0 <= i < |d.log| ==> TagOk(d, d.log[i]))
    && (forall i :: 0 <= i < |d.answers| ==> AnswerOk(d, d.answers[i]))
    && (d.stage.Committing? || d.stage.Written? ==> d.stage.key in d.ledger && !d.ledger[d.stage.key].completed)
    && (d.stage.Written? ==>
       |d.log| > 0 && d.log[|d.log| - 1] == Tagged(Some(d.stage.key), Put(d.ledger[d.stage.key].records)))
  }

  lemma MovesKeeps(d: Desk, a: Act, e: Desk)
    requires DeskInv(d) && Moves(d, a, e)
    ensures DeskInv(e)
  {
    hide EntryOk, TagOk, AnswerOk;
    forall k | k in e.ledger ensures EntryOk(e, k) { MovesEntry(d, a, e, k); }
    forall i | 0 <= i < |e.log| ensures TagOk(e, e.log[i]) { MovesTag(d, a, e, i); }
    forall i | 0 <= i < |e.answers| ensures AnswerOk(e, e.answers[i]) { MovesAnswer(d, a, e, i); }
  }

  lemma MovesEntry(d: Desk, a: Act, e: Desk, k: string)
    requires DeskInv(d) && Moves(d, a, e) && k in e.ledger
    ensures EntryOk(e, k)
  {
    hide TagOk, AnswerOk;
    assert k in d.ledger ==> EntryOk(d, k);
  }

  lemma MovesTag(d: Desk, a: Act, e: Desk, i: nat)
    requires DeskInv(d) && Moves(d, a, e) && i < |e.log|
    ensures TagOk(e, e.log[i])
  {
    hide EntryOk, AnswerOk;
    assert i < |d.log| ==> TagOk(d, d.log[i]);
  }

  lemma MovesAnswer(d: Desk, a: Act, e: Desk, i: nat)
    requires DeskInv(d) && Moves(d, a, e) && i < |e.answers|
    ensures AnswerOk(e, e.answers[i])
  {
    hide EntryOk, TagOk;
    assert i < |d.answers| ==> AnswerOk(d, d.answers[i]);
  }

  /** What one step leaves alone: the log and the answers grow, a completed entry stays and gets no new log record. */
  ghost predicate Grows(d: Desk, e: Desk)
  {
    && d.log <= e.log && d.answers <= e.answers
    && (forall k :: k in d.ledger ==>
       k in e.ledger && e.ledger[k].request == d.ledger[k].request && e.ledger[k].records == d.ledger[k].records)
    && (forall k :: k in d.ledger && d.ledger[k].completed ==> e.ledger[k] == d.ledger[k])
    && (forall k, n :: k in d.ledger && d.ledger[k].completed && |d.log| <= n < |e.log| ==> e.log[n].key != Some(k))
  }

  lemma MovesGrows(d: Desk, a: Act, e: Desk)
    requires DeskInv(d) && Moves(d, a, e)
    ensures Grows(d, e)
  {
  }

  lemma GrowsTrans(c: Desk, d: Desk, e: Desk)
    requires Grows(c, d) && Grows(d, e)
    ensures Grows(c, e)
  {
    forall k, n | k in c.ledger && c.ledger[k].completed && |c.log| <= n < |e.log| ensures e.log[n].key != Some(k)
    {
      if n < |d.log| { assert e.log[n] == d.log[n]; }
    }
  }

  lemma {:induction false} HistoryHolds(desks: seq<Desk>, acts: seq<Act>, i: nat, j: nat)
    requires IsHistory(desks, acts) && i <= j < |desks|
    ensures DeskInv(desks[i]) && DeskInv(desks[j]) && Grows(desks[i], desks[j])
    decreases j
  {
    hide DeskInv, Moves, Grows;
    if j == 0 {
      StartOk();
    } else {
      var before := desks[j - 1];
      if i < j { HistoryHolds(desks, acts, i, j - 1); } else { HistoryHolds(desks, acts, i - 1, j - 1); }
      assert Moves(before, acts[j - 1], desks[j - 1 + 1]);
      MovesKeeps(before, acts[j - 1], desks[j]);
      MovesGrows(before, acts[j - 1], desks[j]);
      if i < j { GrowsTrans(desks[i], before, desks[j]); } else { GrowsSelf(desks[j]); }
    }
  }

  lemma StartOk()
    ensures DeskInv(START) && Grows(START, START)
  {
  }

  lemma GrowsSelf(d: Desk)
    ensures Grows(d, d)
  {
  }

  /* ---------- theorems over every history ---------- */

  /**
   * Two successful calls with one key, at any two times, answered the same request with the same records and sequence.
   */
  lemma SameAnswer(desks: seq<Desk>, acts: seq<Act>, i: nat, j: nat, a: Answer, b: Answer)
    requires IsHistory(desks, acts) && i <= j < |desks|
    requires a in desks[i].answers && b in desks[j].answers && a.key == b.key
    ensures a == b
  {
    hide Moves;
    HistoryHolds(desks, acts, i, j);
    var m :| 0 <= m < |desks[i].answers| && desks[i].answers[m] == a;
    assert AnswerOk(desks[j], desks[j].answers[m]);
  }

  /** After a success nothing more is appended for the key, and the answered sequence holds the answered records. */
  lemma AppendsNothingMore(desks: seq<Desk>, acts: seq<Act>, i: nat, j: nat, a: Answer, n: nat)
    requires IsHistory(desks, acts) && i <= j < |desks| && a in desks[i].answers
    ensures 0 < a.sequence <= |desks[j].log| && desks[j].log[a.sequence - 1] == Tagged(Some(a.key), Put(a.records))
    ensures |desks[i].log| <= n < |desks[j].log| ==> desks[j].log[n].key != Some(a.key)
  {
    hide Moves;
    HistoryHolds(desks, acts, i, j);
    var m :| 0 <= m < |desks[i].answers| && desks[i].answers[m] == a;
    assert AnswerOk(desks[i], a) && EntryOk(desks[i], a.key);
  }

  /** All log records ever written for one key carry the same prepared records, however many crashes made it retry. */
  lemma OnePayload(desks: seq<Desk>, acts: seq<Act>, i: nat, m: nat, n: nat)
    requires IsHistory(desks, acts) && i < |desks| && m < |desks[i].log| && n < |desks[i].log|
    requires desks[i].log[m].key.Some? && desks[i].log[m].key == desks[i].log[n].key
    ensures desks[i].log[m].mutation == desks[i].log[n].mutation
  {
    hide Moves;
    HistoryHolds(desks, acts, i, i);
    assert TagOk(desks[i], desks[i].log[m]) && TagOk(desks[i], desks[i].log[n]);
  }

  datatype Reply = Stored(records: seq<Record>, sequence: nat) | KeyConflict | Rejected

  /** Once a key has been answered, the ledger holds that answer at every later time. */
  lemma AnswerStays(desks: seq<Desk>, acts: seq<Act>, i: nat, j: nat, a: Answer)
    requires IsHistory(desks, acts) && i <= j < |desks| && a in desks[i].answers
    ensures a.key in desks[j].ledger && desks[j].ledger[a.key] == LedgerEntry(a.request, a.records, true, a.sequence)
  {
    hide Moves;
    HistoryHolds(desks, acts, i, j);
    var m :| 0 <= m < |desks[i].answers| && desks[i].answers[m] == a;
    assert AnswerOk(desks[j], desks[j].answers[m]);
  }

  /* ---------- what a stop leaves to do ---------- */

  function Stopped(d: Desk): Desk
  {
    d.(ledger := d.durable, stage := Ready)
  }

  /** The step takes the key up for this request. */
  ghost predicate TakesUp(a: Act, key: string, request: seq<Record>)
  {
    a == Resume(key, request) || a == Repeat(key, request) || (a.Reserve? && a.key == key && a.request == request)
  }

  ghost predicate CanTakeUp(d: Desk, key: string, request: seq<Record>)
  {
    exists a, e :: TakesUp(a, key, request) && Moves(d, a, e)
  }

  /**
   * Stopped at any moment of any history, a key can be taken up for a request if and only if the ledger does not hold
   * it for another one.
   */
  lemma ConflictIff(desks: seq<Desk>, acts: seq<Act>, i: nat, key: string, request: seq<Record>)
    requires IsHistory(desks, acts) && i < |desks| && 0 < |request| <= MAX_BATCH
    ensures var d := desks[i];
            CanTakeUp(Stopped(d), key, request) <==> !(key in d.ledger && d.ledger[key].request != request)
  {
    HistoryHolds(desks, acts, i, i);
    var d := Stopped(desks[i]);
    if key !in d.ledger {
      var ledger := d.ledger[key := LedgerEntry(request, request, false, 0)];
      assert Moves(d, Reserve(key, request, request), d.(ledger := ledger, durable := ledger, stage :=
          Committing(key)));
    } else if d.ledger[key].request == request {
      if d.ledger[key].completed {
        var answer := Answer(key, request, d.ledger[key].records, d.ledger[key].sequence);
        assert Moves(d, Repeat(key, request), d.(answers := d.answers + [answer]));
      } else {
        assert Moves(d, Resume(key, request), d.(stage := Committing(key)));
      }
    }
  }

  lemma HistoryMore(desks: seq<Desk>, acts: seq<Act>, a: Act, e: Desk)
    requires IsHistory(desks, acts) && Moves(desks[|desks| - 1], a, e)
    ensures IsHistory(desks + [e], acts + [a])
  {
    hide Moves;
  }

  /** The desk after a taken-up key was written and completed. */
  function Finished(d: Desk, key: string): Desk
    requires key in d.ledger
  {
    var e := d.ledger[key];
    var ledger := d.ledger[key := e.(completed := true, sequence := |d.log| + 1)];
    Desk(ledger, ledger, d.log + [Tagged(Some(key), Put(e.records))], Ready,
        d.answers + [Answer(key, e.request, e.records, |d.log| + 1)])
  }

  lemma WriteAndComplete(desks: seq<Desk>, acts: seq<Act>, key: string) returns (more: seq<Desk>)
    requires |desks| > 0 && IsHistory(desks, acts) && desks[|desks| - 1].stage == Committing(key)
             && key in desks[|desks| - 1].ledger
    ensures |more| == 2 && more[1] == Finished(desks[|desks| - 1], key)
    ensures IsHistory(desks + more, acts + [Write, Complete])
  {
    hide IsHistory;
    var d := desks[|desks| - 1];
    var e := d.(log := d.log + [Tagged(Some(key), Put(d.ledger[key].records))], stage := Written(key));
    HistoryMore(desks, acts, Write, e);
    var f := Finished(d, key);
    assert Moves(e, Complete, f);
    HistoryMore(desks + [e], acts + [Write], Complete, f);
    more := [e, f];
    assert desks + [e] + [f] == desks + more && acts + [Write] + [Complete] == acts + [Write, Complete];
  }

  /**
   * A reservation left behind by a stop at any moment of any history is finished by the same request: the reserved
   * records are appended once and answered, under the position they were appended at.
   */
  lemma ReservedFinishes(desks: seq<Desk>, acts: seq<Act>, key: string) returns (more: seq<Desk>)
    requires |desks| > 0 && IsHistory(desks, acts)
    requires var d := desks[|desks| - 1]; key in d.ledger && !d.ledger[key].completed
    ensures var d := desks[|desks| - 1];
            && |more| == 4 && more[3] == Finished(d, key)
            && IsHistory(desks + more, acts + [Stop, Resume(key, d.ledger[key].request), Write, Complete])
  {
    hide IsHistory;
    var d := desks[|desks| - 1];
    assert d.durable == d.ledger by { LedgerDurable(desks, acts, |desks| - 1); }
    var s := Stopped(d);
    HistoryMore(desks, acts, Stop, s);
    var a, c := Resume(key, d.ledger[key].request), s.(stage := Committing(key));
    HistoryMore(desks + [s], acts + [Stop], a, c);
    var end := WriteAndComplete(desks + [s] + [c], acts + [Stop] + [a], key);
    more := [s, c] + end;
    assert desks + [s] + [c] + end == desks + more;
    assert acts + [Stop] + [a] + [Write, Complete] == acts + [Stop, a, Write, Complete];
  }

  lemma LedgerDurable(desks: seq<Desk>, acts: seq<Act>, i: nat)
    requires IsHistory(desks, acts) && i < |desks|
    ensures desks[i].durable == desks[i].ledger
  {
    hide Moves;
    HistoryHolds(desks, acts, i, i);
  }

  /**
   * A key no reservation was made for, also one whose reservation a stop prevented, is stored with its prepared
   * records.
   */
  lemma NewKeyStored(desks: seq<Desk>, acts: seq<Act>, key: string, request: seq<Record>, prepared: seq<Record>)
      returns (more: seq<Desk>)
    requires |desks| > 0 && IsHistory(desks, acts) && key !in desks[|desks| - 1].ledger && 0 < |prepared| <= MAX_BATCH
    ensures var d := desks[|desks| - 1];
            && |more| == 4
            && more[3] == Finished(d.(ledger := d.ledger[key := LedgerEntry(request, prepared, false, 0)]), key)
            && IsHistory(desks + more, acts + [Stop, Reserve(key, request, prepared), Write, Complete])
  {
    hide IsHistory;
    var d := desks[|desks| - 1];
    assert d.durable == d.ledger by { LedgerDurable(desks, acts, |desks| - 1); }
    var s := Stopped(d);
    HistoryMore(desks, acts, Stop, s);
    var ledger := s.ledger[key := LedgerEntry(request, prepared, false, 0)];
    var a, c := Reserve(key, request, prepared), s.(ledger := ledger, durable := ledger, stage := Committing(key));
    HistoryMore(desks + [s], acts + [Stop], a, c);
    var end := WriteAndComplete(desks + [s] + [c], acts + [Stop] + [a], key);
    more := [s, c] + end;
    assert desks + [s] + [c] + end == desks + more;
    assert acts + [Stop] + [a] + [Write, Complete] == acts + [Stop, a, Write, Complete];
  }

  /* ---------- the engine's operation ---------- */

  function Untag(log: seq<Tagged>): seq<Mutation>
  {
    seq(|log|, i requires 0 <= i < |log| => log[i].mutation)
  }

  lemma UntagPush(log: seq<Tagged>, t: Tagged)
    ensures Untag(log + [t]) == Untag(log) + [t.mutation]
  {
  }

  /** `appended` is every mutation the log was given; the position of the last one is its length. */
  class LedgerEngine {
    const shard: Shard
    var appended: seq<Mutation>
    var ledger: map<string, LedgerEntry>
    var durable: map<string, LedgerEntry>
    ghost var log: seq<Tagged>
    ghost var stage: Stage
    ghost var answers: seq<Answer>
    ghost var desks: seq<Desk>
    ghost var acts: seq<Act>

    ghost function State(): Desk
      reads this
    {
      Desk(ledger, durable, log, stage, answers)
    }

    ghost predicate Traced()
      reads this
    {
      |desks| > 0 && IsHistory(desks, acts) && desks[|desks| - 1] == State() && Untag(log) == appended
    }

    ghost predicate Valid()
      reads this, shard, if shard.immutable == null then {} else {shard.immutable}
    {
      shard.Valid() && Traced() && stage == Ready && Seen(shard.View()) == Replay(appended)
    }

    constructor ()
      ensures Valid() && ledger == map[] && answers == [] && appended == []
    {
      shard := new Shard();
      appended, ledger, durable := [], map[], map[];
      log, stage, answers, acts := [], Ready, [], [];
      desks := [START];
    }

    ghost method Step(a: Act)
      requires |desks| > 0 && IsHistory(desks, acts) && Moves(desks[|desks| - 1], a, State()) && Untag(log) == appended
      modifies this`desks, this`acts
      ensures Traced() && desks == old(desks) + [State()]
    {
      hide Moves;
      desks, acts := desks + [State()], acts + [a];
    }

    /** Appends the reserved records and applies them. */
    method WriteReserved(key: string)
      requires shard.Valid() && Traced() && stage == Committing(key) && key in ledger
               && Seen(shard.View()) == Replay(appended)
      modifies this, shard
      ensures shard.Valid() && Traced() && stage == Written(key) && old(desks) <= desks
              && Seen(shard.View()) == Replay(appended)
      ensures ledger == old(ledger) && durable == old(durable) && answers == old(answers)
      ensures appended == old(appended) + [Put(old(ledger[key].records))]
    {
      hide IsHistory, Sound, Seen, Apply, Recovery.Act, Untag;
      var mu := Put(ledger[key].records);
      UntagPush(log, Tagged(Some(key), mu));
      ReplayPush(appended, mu);
      appended := appended + [mu];
      log, stage := log + [Tagged(Some(key), mu)], Written(key);
      Step(Write);
      ApplyMutation(shard, mu);
    }

    /** Completes the entry under the position its batch was appended at. */
    method CompleteEntry(key: string) returns (sequence: nat)
      requires shard.Valid() && Traced() && stage == Written(key) && key in ledger
               && Seen(shard.View()) == Replay(appended)
      modifies this
      ensures Valid() && old(desks) <= desks && sequence == |appended| && appended == old(appended)
      ensures ledger == old(ledger)[key := old(ledger[key]).(completed := true, sequence := sequence)]
      ensures answers == old(answers) + [Answer(key, ledger[key].request, ledger[key].records, sequence)]
    {
      hide IsHistory, Sound, Seen, Replay;
      sequence := |appended|;
      ledger := ledger[key := ledger[key].(completed := true, sequence := sequence)];
      durable := ledger;
      stage, answers := Ready, answers + [Answer(key, ledger[key].request, ledger[key].records, sequence)];
      Step(Complete);
    }

    /** Reserves the key, or takes up a reservation a crash left behind. */
    method Claim(request: seq<Record>, key: string, prepared: seq<Record>)
      requires Valid() && 0 < |prepared| <= MAX_BATCH
      requires key in ledger ==> ledger[key].request == request && !ledger[key].completed
      modifies this
      ensures shard.Valid() && Traced() && stage == Committing(key) && old(desks) <= desks
              && Seen(shard.View()) == Replay(appended)
      ensures appended == old(appended) && answers == old(answers) && key in ledger
      ensures ledger == if key in old(ledger) then old(ledger)
              else old(ledger)[key := LedgerEntry(request, prepared, false, 0)]
    {
      hide IsHistory, Sound, Seen, Replay, ValidKey;
      stage := Committing(key);
      if key in ledger {
        Step(Resume(key, request));
      } else {
        ledger := ledger[key := LedgerEntry(request, prepared, false, 0)];
        durable := ledger;
        Step(Reserve(key, request, prepared));
      }
    }

    /** A completed request is answered from the ledger. */
    method Recall(request: seq<Record>, key: string) returns (r: Reply)
      requires Valid() && key in ledger && ledger[key].request == request && ledger[key].completed
      modifies this
      ensures Valid() && old(desks) <= desks && r == Stored(old(ledger[key].records), old(ledger[key].sequence))
      ensures appended == old(appended) && ledger == old(ledger)
              && answers == old(answers) + [Answer(key, request, r.records, r.sequence)]
    {
      hide IsHistory, Sound, Seen, Replay;
      r := Stored(ledger[key].records, ledger[key].sequence);
      answers := answers + [Answer(key, request, r.records, r.sequence)];
      Step(Repeat(key, request));
    }

    /** A batch without a key goes straight to the log. */
    method AppendPlain(records: seq<Record>)
      requires Valid()
      modifies this, shard
      ensures Valid() && old(desks) <= desks && appended == old(appended) + [Put(records)]
      ensures ledger == old(ledger) && durable == old(durable) && answers == old(answers)
    {
      hide IsHistory, Sound, Seen, Apply, Recovery.Act, Untag;
      var mu := Put(records);
      UntagPush(log, Tagged(None, mu));
      ReplayPush(appended, mu);
      appended := appended + [mu];
      log := log + [Tagged(None, mu)];
      Step(Other(mu));
      ApplyMutation(shard, mu);
    }

    /** The ledger holds the key, for this request or for another one. */
    predicate Known(request: seq<Record>, key: string, same: bool)
      reads this
    {
      key != "" && key in ledger && (ledger[key].request == request <==> same)
    }

    /**
     * `prepared` is the request as the collection versioned and stamped it. A completed request is answered from the
     * ledger, a reserved one with the reserved records, a new one with the prepared records.
     */
    method BatchUpsertIdempotent(request: seq<Record>, key: string, prepared: seq<Record>) returns (r: Reply)
      requires Valid() && |prepared| == |request|
      modifies this, shard
      ensures Valid() && old(desks) <= desks
      ensures r.Rejected? <==> |request| == 0 || |request| > 10000 || (key != "" && !ValidKey(key))
      ensures r.KeyConflict? <==> !r.Rejected? && old(Known(request, key, false))
      ensures !r.Stored? ==> appended == old(appended) && ledger == old(ledger) && answers == old(answers)
      ensures r.Stored? && old(Known(request, key, true) && ledger[key].completed) ==>
                && r == Stored(old(ledger[key].records), old(ledger[key].sequence))
                && appended == old(appended) && ledger == old(ledger)
      ensures r.Stored? && !old(Known(request, key, true) && ledger[key].completed) ==>
                && r == Stored(if old(Known(request, key, true)) then old(ledger[key].records)
                   else prepared, |appended|)
                && appended == old(appended) + [Put(r.records)]
                && ledger == if key == "" then old(ledger)
                   else old(ledger)[key := LedgerEntry(request, r.records, true, r.sequence)]
      ensures r.Stored? ==>
              answers == old(answers) + if key == "" then [] else [Answer(key, request, r.records, r.sequence)]
      ensures !r.Rejected? ==> forall a :: a in old(answers) && a.key == key && key != "" ==>
                r == if a.request == request then Stored(a.records, a.sequence) else KeyConflict
    {
      hide IsHistory, Sound, Seen, Replay, ValidKey;
      if |request| == 0 || |request| > MAX_BATCH || (key != "" && !ValidKey(key)) { return Rejected; }
      AllAnswersStay(desks, acts);
      if key == "" {
        AppendPlain(prepared);
        return Stored(prepared, |appended|);
      }
      if key in ledger && ledger[key].request != request { return KeyConflict; }
      if key in ledger && ledger[key].completed {
        r := Recall(request, key);
        return;
      }
      Claim(request, key, prepared);
      var records := ledger[key].records;
      WriteReserved(key);
      var sequence := CompleteEntry(key);
      r := Stored(records, sequence);
    }
  }

  lemma AllAnswersStay(desks: seq<Desk>, acts: seq<Act>)
    requires |desks| > 0 && IsHistory(desks, acts)
    ensures var d := desks[|desks| - 1];
            forall a :: a in d.answers ==>
              a.key in d.ledger && d.ledger[a.key] == LedgerEntry(a.request, a.records, true, a.sequence)
  {
    hide IsHistory;
    var n := |desks| - 1;
    forall a | a in desks[n].answers
      ensures a.key in desks[n].ledger && desks[n].ledger[a.key] == LedgerEntry(a.request, a.records, true, a.sequence)
    {
      AnswerStays(desks, acts, n, n, a);
    }
  }

  lemma ReplayPush(history: seq<Mutation>, mu: Mutation)
    ensures Replay(history + [mu]) == Recovery.Act(Replay(history), mu)
  {
    assert (history + [mu])[..|history|] == history;
  }
}
