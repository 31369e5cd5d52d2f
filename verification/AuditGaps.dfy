/** generate_audit_gaps: the gap lists by document id and their running total. */
module AuditGaps {
  import opened Wrappers

  /** A processed document: its id, its file, and its normalised gap list. */
  datatype Doc = Doc(id: string, file: string, gaps: seq<string>)

  datatype Entry = Entry(file: string, gaps: seq<string>)

  /** The last document with an id. */
  function LastDoc(docs: seq<Doc>, id: string): Option<Doc> {
    if |docs| == 0 then None
    else if docs[|docs| - 1].id == id then Some(docs[|docs| - 1])
    else LastDoc(docs[..|docs| - 1], id)
  }

  /** How many gaps are stored. */
  ghost function Stored(m: map<string, Entry>): nat
    decreases |m|
  {
    if m == map[] then 0
    else
      var id :| id in m;
      |m[id].gaps| + Stored(m - {id})
  }

  lemma {:induction false} StoredWithout(m: map<string, Entry>, id: string)
    requires id in m
    ensures Stored(m) == |m[id].gaps| + Stored(m - {id})
    decreases |m|
  {
    var first :| first in m && Stored(m) == |m[first].gaps| + Stored(m - {first});
    if first != id {
      StoredWithout(m - {first}, id);
      StoredWithout(m - {id}, first);
      assert m - {first} - {id} == m - {id} - {first};
    }
  }

  lemma StoredPut(m: map<string, Entry>, id: string, e: Entry)
    ensures Stored(m[id := e]) == |e.gaps| + Stored(m - {id})
  {
    StoredWithout(m[id := e], id);
    assert m[id := e] - {id} == m - {id};
  }

  ghost predicate HoldsLast(docs: seq<Doc>, m: map<string, Entry>) {
    && (forall id :: id in m <==> LastDoc(docs, id).Some? && LastDoc(docs, id).value.gaps != [])
    && (forall id :: id in m ==> m[id] == Entry(LastDoc(docs, id).value.file, LastDoc(docs, id).value.gaps))
  }

  ghost predicate SeenLast(docs: seq<Doc>, seen: map<string, string>) {
    && (forall id :: id in seen <==> LastDoc(docs, id).Some?)
    && (forall id :: id in seen ==> seen[id] == LastDoc(docs, id).value.file)
  }

  /** The entry of a document that comes last. */
  function Put(m: map<string, Entry>, doc: Doc): map<string, Entry> {
    if doc.gaps == [] then m - {doc.id} else m[doc.id := Entry(doc.file, doc.gaps)]
  }

  lemma LastDocAppend(docs: seq<Doc>, doc: Doc, id: string)
    ensures LastDoc(docs + [doc], id) == if doc.id == id then Some(doc) else LastDoc(docs, id)
  {
    assert (docs + [doc])[..|docs|] == docs;
  }

  lemma PutHoldsLast(docs: seq<Doc>, m: map<string, Entry>, doc: Doc)
    requires HoldsLast(docs, m)
    ensures HoldsLast(docs + [doc], Put(m, doc))
  {
    forall id ensures LastDoc(docs + [doc], id) == if doc.id == id then Some(doc) else LastDoc(docs, id) {
      LastDocAppend(docs, doc, id);
    }
  }

  lemma PutSeenLast(docs: seq<Doc>, seen: map<string, string>, doc: Doc)
    requires SeenLast(docs, seen)
    ensures SeenLast(docs + [doc], seen[doc.id := doc.file])
  {
    forall id ensures LastDoc(docs + [doc], id) == if doc.id == id then Some(doc) else LastDoc(docs, id) {
      LastDocAppend(docs, doc, id);
    }
  }

  /** Keeps the map of gap lists and the running total while documents come in. */
  class Aggregation {
    var auditGaps: map<string, Entry>
    var totalGaps: int
    var seenIds: map<string, string>
    ghost var processed: seq<Doc>

    ghost predicate Valid()
      reads this
    {
      totalGaps == Stored(auditGaps) && HoldsLast(processed, auditGaps) && SeenLast(processed, seenIds)
    }

    constructor ()
      ensures Valid() && processed == []
    {
      auditGaps, totalGaps, seenIds, processed := map[], 0, map[], [];
    }

    /** Handles one document: overwrites, clears, or leaves the entry of its id alone. */
    method Process(doc: Doc)
      requires Valid()
      modifies this
      ensures Valid() && processed == old(processed) + [doc]
    {
      PutHoldsLast(processed, auditGaps, doc);
      PutSeenLast(processed, seenIds, doc);
      processed := processed + [doc];
      seenIds := seenIds[doc.id := doc.file];
      if doc.gaps == [] {
        if doc.id in auditGaps {
          StoredWithout(auditGaps, doc.id);
          totalGaps := totalGaps - |auditGaps[doc.id].gaps|;
          auditGaps := auditGaps - {doc.id};
        } else {
          assert auditGaps - {doc.id} == auditGaps;
        }
        return;
      }
      if doc.id in auditGaps {
        StoredWithout(auditGaps, doc.id);
        totalGaps := totalGaps - |auditGaps[doc.id].gaps|;
      } else {
        assert auditGaps - {doc.id} == auditGaps;
      }
      StoredPut(auditGaps, doc.id, Entry(doc.file, doc.gaps));
      auditGaps := auditGaps[doc.id := Entry(doc.file, doc.gaps)];
      totalGaps := totalGaps + |doc.gaps|;
    }
  }

  /** The whole run over the documents, in their order. */
  method Aggregate(docs: seq<Doc>) returns (auditGaps: map<string, Entry>, totalGaps: int)
    ensures totalGaps == Stored(auditGaps)
    ensures HoldsLast(docs, auditGaps)
  {
    var aggregation := new Aggregation();
    for i := 0 to |docs|
      invariant aggregation.Valid() && fresh(aggregation) && aggregation.processed == docs[..i]
    {
      aggregation.Process(docs[i]);
      assert docs[..i + 1] == docs[..i] + [docs[i]];
    }
    assert docs[..|docs|] == docs;
    return aggregation.auditGaps, aggregation.totalGaps;
  }

  function Sum(docs: seq<Doc>): nat {
    if |docs| == 0 then 0 else Sum(docs[..|docs| - 1]) + |docs[|docs| - 1].gaps|
  }

  predicate DistinctIds(docs: seq<Doc>) {
    forall i, j :: 0 <= i < j < |docs| ==> docs[i].id != docs[j].id
  }

  lemma {:induction false} LastDocAbsent(docs: seq<Doc>, id: string)
    ensures LastDoc(docs, id).None? <==> forall i :: 0 <= i < |docs| ==> docs[i].id != id
  {
    if |docs| > 0 {
      LastDocAbsent(docs[..|docs| - 1], id);
    }
  }

  /** Without repeated ids the total counts every gap of every document. */
  lemma {:induction false} DistinctTotal(docs: seq<Doc>, m: map<string, Entry>)
    requires DistinctIds(docs) && HoldsLast(docs, m)
    ensures Stored(m) == Sum(docs)
  {
    if |docs| == 0 {
      assert m == map[];
    } else {
      var init, last := docs[..|docs| - 1], docs[|docs| - 1];
      LastDocAbsent(init, last.id);
      assert docs == init + [last];
      forall id ensures LastDoc(docs, id) == if last.id == id then Some(last) else LastDoc(init, id) {
        LastDocAppend(init, last, id);
      }
      assert HoldsLast(init, m - {last.id});
      DistinctTotal(init, m - {last.id});
      if last.id in m {
        StoredWithout(m, last.id);
      } else {
        assert m - {last.id} == m;
      }
    }
  }
}
