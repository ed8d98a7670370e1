/** A mutable segment: ordinals, records, the lexical index and the metadata index kept in step. */
module SegmentIndex {
  import L = Lexical
  import F = Filters
  import FI = FilterIndex
  import Bitmaps

  /** The key joins namespace and identifier. */
  datatype Row = Row(key: string, id: string, doc: L.Doc, metadata: F.Metadata)

  ghost function DocsOf(records: map<nat, Row>): L.Docs
  {
    map o | o in records :: records[o].doc
  }

  ghost function MetadataOf(records: map<nat, Row>): F.Docs
  {
    map o | o in records :: records[o].metadata
  }

  /** Ordinals and records name each other. */
  ghost predicate Paired(ordinals: map<string, nat>, records: map<nat, Row>, nextId: nat)
  {
    && (forall k :: k in ordinals ==> ordinals[k] in records && records[ordinals[k]].key == k)
    && (forall o :: o in records ==> o < nextId && records[o].key in ordinals && ordinals[records[o].key] == o)
  }

  lemma PairedPut(ordinals: map<string, nat>, records: map<nat, Row>, nextId: nat, o: nat, row: Row, next: nat)
    requires Paired(ordinals, records, nextId) && o < next && nextId <= next
    requires if row.key in ordinals then o == ordinals[row.key] else o !in records
    ensures Paired(ordinals[row.key := o], records[o := row], next)
  {
  }

  lemma PairedDrop(ordinals: map<string, nat>, records: map<nat, Row>, nextId: nat, k: string)
    requires Paired(ordinals, records, nextId) && k in ordinals
    ensures Paired(ordinals - {k}, records - {ordinals[k]}, nextId)
  {
  }

  lemma DocsPut(records: map<nat, Row>, o: nat, row: Row)
    ensures DocsOf(records[o := row]) == DocsOf(records)[o := row.doc]
    ensures (DocsOf(records) - {o})[o := row.doc] == DocsOf(records)[o := row.doc]
    ensures o !in records ==> o !in DocsOf(records)
  {
  }

  lemma MetadataPut(records: map<nat, Row>, o: nat, row: Row)
    ensures MetadataOf(records[o := row]) == MetadataOf(records)[o := row.metadata]
  {
  }

  lemma DocsDrop(records: map<nat, Row>, o: nat)
    requires o in records
    ensures DocsOf(records - {o}) == DocsOf(records) - {o} && MetadataOf(records - {o}) == MetadataOf(records) - {o}
    ensures o in DocsOf(records) && DocsOf(records)[o] == records[o].doc
  {
  }

  ghost function Visible(ordinals: map<string, nat>, records: map<nat, Row>, nextId: nat): map<string, Row>
    requires Paired(ordinals, records, nextId)
  {
    map k | k in ordinals :: records[ordinals[k]]
  }

  lemma VisiblePut(ordinals: map<string, nat>, records: map<nat, Row>, nextId: nat, o: nat, row: Row, next: nat)
    requires Paired(ordinals, records, nextId) && Paired(ordinals[row.key := o], records[o := row], next)
    requires if row.key in ordinals then o == ordinals[row.key] else o !in records
    ensures Visible(ordinals[row.key := o], records[o := row], next)
            == Visible(ordinals, records, nextId)[row.key := row]
  {
  }

  lemma VisibleDrop(ordinals: map<string, nat>, records: map<nat, Row>, nextId: nat, k: string)
    requires Paired(ordinals, records, nextId) && k in ordinals
             && Paired(ordinals - {k}, records - {ordinals[k]}, nextId)
    ensures Visible(ordinals - {k}, records - {ordinals[k]}, nextId) == Visible(ordinals, records, nextId) - {k}
  {
  }

  lemma VisibleKeys(ordinals: map<string, nat>, records: map<nat, Row>, nextId: nat, k: string)
    requires Paired(ordinals, records, nextId)
    ensures k in ordinals <==> k in Visible(ordinals, records, nextId)
    ensures k !in ordinals ==> Visible(ordinals, records, nextId) - {k} == Visible(ordinals, records, nextId)
  {
  }

  /** The lexical index after a record takes an ordinal, whether or not another one held it. */
  method Reindex(l: L.Index, records: map<nat, Row>, o: nat, row: Row) returns (r: L.Index)
    requires L.IndexOf(l, DocsOf(records))
    ensures L.IndexOf(r, DocsOf(records[o := row]))
  {
    hide L.IndexOf, DocsOf;
    DocsPut(records, o, row);
    r := l;
    if o in records {
      DocsDrop(records, o);
      r := L.Remove(r, o, records[o].doc, DocsOf(records));
      r := L.Add(r, o, row.doc, DocsOf(records) - {o});
    } else {
      r := L.Add(r, o, row.doc, DocsOf(records));
    }
  }

  lemma NoDocs(records: map<nat, Row>)
    ensures DocsOf(records - records.Keys) == map[]
  {
  }

  lemma DocsPush(records: map<nat, Row>, left: set<nat>, o: nat)
    requires o in left && o in records
    ensures o !in DocsOf(records - left) && DocsOf(records - (left - {o}))
            == DocsOf(records - left)[o := records[o].doc]
  {
  }

  class Segment {
    var nextId: nat
    var records: map<nat, Row>
    var ordinals: map<string, nat>
    var lexical: L.Index
    const metadata: FI.Index

    ghost predicate Valid()
      reads this, metadata
    {
      && Paired(ordinals, records, nextId)
      && L.IndexOf(lexical, DocsOf(records))
      && metadata.Valid() && metadata.docs == MetadataOf(records)
    }

    ghost function Rows(): map<string, Row>
      requires Paired(ordinals, records, nextId)
      reads this
    {
      Visible(ordinals, records, nextId)
    }

    constructor (split: F.Splitter)
      ensures Valid() && Rows() == map[] && fresh(metadata)
    {
      nextId, records, ordinals, lexical := 1, map[], map[], L.EMPTY;
      metadata := new FI.Index(split);
      L.EmptyIndex();
    }

    /** False is the missing identifier. */
    method Upsert(row: Row) returns (ok: bool)
      requires Valid()
      modifies this, metadata
      ensures Valid() && ok == (row.id != "")
      ensures Rows() == if ok then old(Rows())[row.key := row] else old(Rows())
    {
      hide Paired, L.IndexOf, Visible, DocsOf, MetadataOf, FI.Indexed, Bitmaps.Good, Bitmaps.Ids;
      if row.id == "" { return false; }
      var o, next := nextId, nextId + 1;
      FreshOrdinal(ordinals, records, nextId);
      if row.key in ordinals { o, next := ordinals[row.key], nextId; }
      PairedPut(ordinals, records, nextId, o, row, next);
      VisiblePut(ordinals, records, nextId, o, row, next);
      MetadataPut(records, o, row);
      lexical := Reindex(lexical, records, o, row);
      metadata.Upsert(o, row.metadata);
      ordinals, records, nextId := ordinals[row.key := o], records[o := row], next;
      ok := true;
    }

    /** False is the missing record. */
    method Delete(key: string) returns (ok: bool)
      requires Valid()
      modifies this, metadata
      ensures Valid() && ok == (key in old(Rows())) && Rows() == old(Rows()) - {key}
    {
      hide Paired, L.IndexOf, Visible, DocsOf, MetadataOf, FI.Indexed, Bitmaps.Good, Bitmaps.Ids;
      VisibleKeys(ordinals, records, nextId, key);
      if key !in ordinals { return false; }
      var o := ordinals[key];
      FreshOrdinal(ordinals, records, nextId);
      PairedDrop(ordinals, records, nextId, key);
      VisibleDrop(ordinals, records, nextId, key);
      DocsDrop(records, o);
      lexical := L.Remove(lexical, o, records[o].doc, DocsOf(records));
      metadata.Delete(o);
      ordinals, records := ordinals - {key}, records - {o};
      ok := true;
    }

    /** Building the lexical index from the surviving records gives the one that was kept. */
    method Rebuild() returns (l: L.Index)
      requires Valid()
      ensures l == lexical
    {
      hide L.IndexOf, Paired, DocsOf, MetadataOf, FI.Indexed;
      l := L.EMPTY;
      L.EmptyIndex();
      var left := records.Keys;
      NoDocs(records);
      while left != {}
        invariant left <= records.Keys && L.IndexOf(l, DocsOf(records - left))
        decreases |left|
      {
        var o :| o in left;
        DocsPush(records, left, o);
        l := L.Add(l, o, records[o].doc, DocsOf(records - left));
        left := left - {o};
      }
      assert records - {} == records;
      L.IndexUnique(l, lexical, DocsOf(records));
    }
  }

  lemma FreshOrdinal(ordinals: map<string, nat>, records: map<nat, Row>, nextId: nat)
    requires Paired(ordinals, records, nextId)
    ensures nextId !in records
    ensures forall k :: k in ordinals ==>
            ordinals[k] in records && ordinals[k] < nextId && records[ordinals[k]].key == k
  {
  }
}
