/** The in-place reconciliation of one parsed entry file: the document
    (`jsonData`) and the per-file summary (`entryMap`) are the state that
    `processEntryFile`, `processEntry`, `processCategoryData` and
    `processProductData` update step by step. */
module EntryFiles {
  import opened Json
  import opened Lookup
  import opened Reconcile

  /** The `data` array of one kind of an entry. */
  function DataOf(e: Entry, kind: Kind): seq<Ref>
    requires HasData(FieldOf(e, kind))
  {
    FieldOf(e, kind).obj.data.value
  }

  /** The entry with element `i` of one kind's `data` array replaced. */
  function WithRef(e: Entry, kind: Kind, i: nat, r: Ref): (e': Entry)
    requires HasData(FieldOf(e, kind)) && i < |DataOf(e, kind)|
    ensures HasData(FieldOf(e', kind)) && DataOf(e', kind) == DataOf(e, kind)[i := r]
  {
    var o := FieldOf(e, kind).obj;
    WithField(e, kind, Present(o.(data := Some(o.data.value[i := r]))))
  }

  lemma StampTwice(m: map<string, Summary>, id: string, kind: Kind, a: Option<string>, b: string)
    ensures Stamp(Stamp(m, id, kind, a), id, kind, Some(b)) == Stamp(m, id, kind, Some(b))
  {
    match a
    case None =>
    case Some(k) =>
      var s := if id in m then m[id] else Summary(None, None);
      assert SetKey(SetKey(s, kind, k), kind, b) == SetKey(s, kind, b) by {
        match kind
        case Category =>
        case Product =>
      }
  }

  lemma WithFieldTwice(e: Entry, kind: Kind, a: KindField, b: KindField)
    ensures WithField(WithField(e, kind, a), kind, b) == WithField(e, kind, b)
  {
    match kind
    case Category =>
    case Product =>
  }

  /** The entry with one kind's `data` array replaced by `d`. */
  function WithData(e: Entry, kind: Kind, d: seq<Ref>): (e': Entry)
    requires HasData(FieldOf(e, kind))
    ensures |d| > 0 ==> HasData(FieldOf(e', kind)) && DataOf(e', kind) == d
  {
    WithField(e, kind, Present(FieldOf(e, kind).obj.(data := Some(d))))
  }

  lemma WithFieldSame(e: Entry, kind: Kind)
    ensures WithField(e, kind, FieldOf(e, kind)) == e
  {
    match kind
    case Category =>
    case Product =>
  }

  lemma WithDataSame(e: Entry, kind: Kind)
    requires HasData(FieldOf(e, kind))
    ensures WithData(e, kind, DataOf(e, kind)) == e
  {
    WithFieldSame(e, kind);
  }

  lemma WithDataTwice(e: Entry, kind: Kind, d: seq<Ref>, d': seq<Ref>)
    requires HasData(FieldOf(e, kind)) && |d| > 0
    ensures WithData(WithData(e, kind, d), kind, d') == WithData(e, kind, d')
  {
    WithFieldTwice(e, kind, Present(FieldOf(e, kind).obj.(data := Some(d))), Present(FieldOf(e, kind).obj.(data := Some(d'))));
  }

  lemma WithRefOfWithData(e: Entry, kind: Kind, d: seq<Ref>, i: nat, r: Ref)
    requires HasData(FieldOf(e, kind)) && i < |d|
    ensures WithRef(WithData(e, kind, d), kind, i, r) == WithData(e, kind, d[i := r])
  {
    WithFieldTwice(e, kind, Present(FieldOf(e, kind).obj.(data := Some(d))), Present(FieldOf(e, kind).obj.(data := Some(d[i := r]))));
  }

  /** The `data` array once the lookups of its first `i` references have
      finished. */
  function Progress(kind: Kind, lookup: string -> Fetch, refs: seq<Ref>, i: nat): (d: seq<Ref>)
    requires i <= |refs|
    ensures |d| == |refs|
  {
    Rewritten(kind, lookup, refs)[..i] + refs[i..]
  }

  lemma ProgressStep(kind: Kind, lookup: string -> Fetch, refs: seq<Ref>, i: nat)
    requires i < |refs|
    ensures Progress(kind, lookup, refs, i)[i] == refs[i]
    ensures Progress(kind, lookup, refs, i)[i := AfterLookup(kind, lookup, refs[i])] == Progress(kind, lookup, refs, i + 1)
  {
  }

  lemma ProgressEnds(kind: Kind, lookup: string -> Fetch, refs: seq<Ref>)
    ensures Progress(kind, lookup, refs, 0) == refs
    ensures Progress(kind, lookup, refs, |refs|) == Rewritten(kind, lookup, refs)
  {
    assert Rewritten(kind, lookup, refs)[..|refs|] == Rewritten(kind, lookup, refs);
  }

  /** One more lookup, applied to the entry holding the partly rewritten
      `data` array, gives the entry holding the next one. */
  lemma ResolveStep(e: Entry, kind: Kind, lookup: string -> Fetch, refs: seq<Ref>, i: nat)
    requires HasData(FieldOf(e, kind)) && i < |refs|
    ensures var cur := WithData(e, kind, Progress(kind, lookup, refs, i));
            && HasData(FieldOf(cur, kind)) && i < |DataOf(cur, kind)| && DataOf(cur, kind)[i] == refs[i]
            && WithRef(cur, kind, i, AfterLookup(kind, lookup, refs[i])) == WithData(e, kind, Progress(kind, lookup, refs, i + 1))
  {
    ProgressStep(kind, lookup, refs, i);
    WithRefOfWithData(e, kind, Progress(kind, lookup, refs, i), i, AfterLookup(kind, lookup, refs[i]));
  }

  lemma SurvivesStep(kind: Kind, lookup: string -> Fetch, refs: seq<Ref>, i: nat)
    requires i < |refs|
    ensures Survives(kind, lookup, refs)[..i + 1] == Survives(kind, lookup, refs)[..i] + [Verdict(kind, lookup, refs[i]).Kept?]
  {
  }

  lemma LastRecordedStep(m: map<string, Summary>, id: string, kind: Kind, lookup: string -> Fetch, refs: seq<Ref>, i: nat)
    requires i < |refs|
    ensures var v := Verdict(kind, lookup, refs[i]);
            Stamp(Stamp(m, id, kind, LastRecorded(kind, lookup, refs[..i])), id, kind, if v.Kept? then v.recorded else None)
              == Stamp(m, id, kind, LastRecorded(kind, lookup, refs[..i + 1]))
  {
    assert refs[..i + 1][..i] == refs[..i];
    var v := Verdict(kind, lookup, refs[i]);
    if v.Kept? && v.recorded.Some? {
      StampTwice(m, id, kind, LastRecorded(kind, lookup, refs[..i]), v.recorded.value);
    }
  }

  lemma MapUpdateTwice<K, V>(m: map<K, V>, k: K, a: V, b: V)
    ensures m[k := a][k := b] == m[k := b]
  {
  }

  /** The filter and the `{}` replacement that end index.js:46-66 / index.js:68-88 give
      the entry that `ReconcileField` describes. */
  lemma FinishKind(e: Entry, kind: Kind, lookup: string -> Fetch, results: seq<bool>)
    requires HasData(FieldOf(e, kind))
    requires results == Survives(kind, lookup, DataOf(e, kind))
    ensures var refs := DataOf(e, kind);
            var e0 := WithData(e, kind, Rewritten(kind, lookup, refs));
            var filtered := KeepWhere(DataOf(e0, kind), results);
            var e1 := WithData(e0, kind, filtered);
            WithField(e, kind, ReconcileField(kind, lookup, FieldOf(e, kind)))
              == if |filtered| == 0 then WithField(e1, kind, Present(EmptyObj)) else e1
  {
    var refs := DataOf(e, kind);
    var filtered := KeepWhere(Rewritten(kind, lookup, refs), results);
    assert filtered == ReconcileRefs(kind, lookup, refs);
    WithDataTwice(e, kind, Rewritten(kind, lookup, refs), filtered);
    WithFieldTwice(e, kind, Present(FieldOf(e, kind).obj.(data := Some(filtered))), Present(EmptyObj));
  }

  /** The summary map once the entries outside `pending` are processed. */
  function SummarySoFar(rs: Resolvers, doc: map<string, Slot>, pending: set<string>): map<string, Summary>
  {
    map x | x in doc && x !in pending && doc[x].Object? && EntrySummary(rs, doc[x].entry).Some?
      :: EntrySummary(rs, doc[x].entry).value
  }

  lemma SummarySoFarStep(rs: Resolvers, doc: map<string, Slot>, pending: set<string>, id: string, m: map<string, Summary>)
    requires id in pending && id in doc && doc[id].Object?
    requires m == SummarySoFar(rs, doc, pending)
    ensures EntryStamp(rs, m, id, doc[id].entry) == SummarySoFar(rs, doc, pending - {id})
  {
    var e := doc[id].entry;
    assert id !in m;
    var c := FieldRecorded(Category, rs.category, e.category);
    var p := FieldRecorded(Product, rs.product, e.product);
    var after := SummarySoFar(rs, doc, pending - {id});
    if c.None? && p.None? {
      assert after == m;
    } else {
      assert EntryStamp(rs, m, id, e) == m[id := Summary(c, p)] by {
        match c
        case None =>
        case Some(_) =>
      }
      assert after == m[id := Summary(c, p)];
    }
  }

  /** Once every entry is processed and none was `null`, the document and
      the summary are the ones `ReconcileFile` describes. */
  lemma FileDone(rs: Resolvers, doc0: map<string, Slot>, doc: map<string, Slot>, m: map<string, Summary>)
    requires doc.Keys == doc0.Keys
    requires forall x :: x in doc0 ==> doc0[x].Object? && doc[x] == Object(FinalEntry(rs, doc0[x].entry))
    requires m == SummarySoFar(rs, doc0, {})
    ensures ReconcileFile(rs, doc0) == Written(doc, m)
  {
    assert !exists id :: id in doc0 && doc0[id].NullEntry?;
    DocDone(rs, doc0, doc);
    SummaryDone(rs, doc0);
  }

  lemma DocDone(rs: Resolvers, doc0: map<string, Slot>, doc: map<string, Slot>)
    requires doc.Keys == doc0.Keys
    requires forall x :: x in doc0 ==> doc0[x].Object? && doc[x] == Object(FinalEntry(rs, doc0[x].entry))
    ensures doc == map x | x in doc0 :: Object(FinalEntry(rs, doc0[x].entry))
  {
  }

  lemma SummaryDone(rs: Resolvers, doc0: map<string, Slot>)
    requires forall x :: x in doc0 ==> doc0[x].Object?
    ensures SummarySoFar(rs, doc0, {})
            == map x | x in doc0 && EntrySummary(rs, doc0[x].entry).Some? :: EntrySummary(rs, doc0[x].entry).value
  {
  }

  class EntryFile {
    /** The parsed document, entry ID to entry. */
    var doc: map<string, Slot>
    /** The summary map being built for this file. */
    var entryMap: map<string, Summary>
    /** The two lookup services of the run. */
    const lookups: Resolvers

    constructor (doc: map<string, Slot>, lookups: Resolvers)
      ensures this.doc == doc && this.lookups == lookups && entryMap == map[]
    {
      this.doc := doc;
      this.lookups := lookups;
      entryMap := map[];
    }

    /** There is a reference at position `i` of kind `kind` of entry `entryId`. */
    predicate HasRefAt(entryId: string, kind: Kind, i: nat)
      reads this
    {
      entryId in doc && doc[entryId].Object? && HasData(FieldOf(doc[entryId].entry, kind))
      && i < |DataOf(doc[entryId].entry, kind)|
    }

    /** `processCategoryData` / `processProductData` for element `i` of the
        `data` array: returns whether the result is non-null, writes the
        reference's `id` and the summary record on a successful lookup. */
    method ProcessReference(entryId: string, kind: Kind, i: nat) returns (kept: bool)
      requires HasRefAt(entryId, kind, i)
      modifies this
      ensures var e := old(doc)[entryId].entry;
              var r := DataOf(e, kind)[i];
              var v := Verdict(kind, LookupFor(lookups, kind), r);
              && kept == v.Kept?
              && doc == old(doc)[entryId := Object(WithRef(e, kind, i, AfterLookup(kind, LookupFor(lookups, kind), r)))]
              && entryMap == Stamp(old(entryMap), entryId, kind, if v.Kept? then v.recorded else None)
    {
      var e := doc[entryId].entry;
      var r := DataOf(e, kind)[i];
      assert WithRef(e, kind, i, r) == e by {
        assert DataOf(e, kind)[i := r] == DataOf(e, kind);
      }
      if !HasKey(r) {
        // A category without a key returns `entryMap`, a product `null`.
        kept := kind == Category;
        return;
      }
      var key := r.key.value;
      var answer := Classify(LookupFor(lookups, kind)(key));
      match answer
      case Threw =>
        kept := false;
      case Returned(None) =>
        kept := false;
      case Returned(Some(newId)) =>
        doc := doc[entryId := Object(WithRef(e, kind, i, r.(id := Some(newId))))];
        entryMap := entryMap[entryId := SetKey(if entryId in entryMap then entryMap[entryId] else Summary(None, None), kind, key)];
        kept := true;
    }

    /** `Promise.all(data.map(processCategoryData))` (or the product
        variant) run one reference after the other: the result of each call,
        position by position, with the ids and the summary written. */
    method ResolveAll(entryId: string, kind: Kind) returns (results: seq<bool>)
      requires entryId in doc && doc[entryId].Object? && HasData(FieldOf(doc[entryId].entry, kind))
      modifies this
      ensures var e := old(doc)[entryId].entry;
              var lookup := LookupFor(lookups, kind);
              && results == Survives(kind, lookup, DataOf(e, kind))
              && doc == old(doc)[entryId := Object(WithData(e, kind, Rewritten(kind, lookup, DataOf(e, kind))))]
              && entryMap == Stamp(old(entryMap), entryId, kind, LastRecorded(kind, lookup, DataOf(e, kind)))
    {
      var e := doc[entryId].entry;
      var lookup := LookupFor(lookups, kind);
      var refs := DataOf(e, kind);
      results := [];
      var i := 0;
      ProgressEnds(kind, lookup, refs);
      WithDataSame(e, kind);
      while i < |refs|
        invariant 0 <= i <= |refs|
        invariant results == Survives(kind, lookup, refs)[..i]
        invariant doc == old(doc)[entryId := Object(WithData(e, kind, Progress(kind, lookup, refs, i)))]
        invariant entryMap == Stamp(old(entryMap), entryId, kind, LastRecorded(kind, lookup, refs[..i]))
      {
        ResolveStep(e, kind, lookup, refs, i);
        ghost var doc1 := doc;
        var kept := ProcessReference(entryId, kind, i);
        MapUpdateTwice(old(doc), entryId, doc1[entryId], doc[entryId]);
        SurvivesStep(kind, lookup, refs, i);
        LastRecordedStep(old(entryMap), entryId, kind, lookup, refs, i);
        results := results + [kept];
        i := i + 1;
      }
      assert refs[..i] == refs;
      assert Survives(kind, lookup, refs)[..i] == Survives(kind, lookup, refs);
    }

    /** `processEntry` at index.js:46-66 (category) or index.js:68-88 (product): look up
        every reference, keep those whose result is non-null, and replace
        the sub-object by `{}` when none is left. */
    method ProcessKind(entryId: string, kind: Kind)
      requires entryId in doc && doc[entryId].Object?
      modifies this
      ensures var e := old(doc)[entryId].entry;
              var lookup := LookupFor(lookups, kind);
              && doc == old(doc)[entryId := Object(WithField(e, kind, ReconcileField(kind, lookup, FieldOf(e, kind))))]
              && entryMap == Stamp(old(entryMap), entryId, kind, FieldRecorded(kind, lookup, FieldOf(e, kind)))
    {
      var e := doc[entryId].entry;
      if !HasData(FieldOf(e, kind)) {
        WithFieldSame(e, kind);
        return;
      }
      var results := ResolveAll(entryId, kind);
      var e0 := doc[entryId].entry;
      var filtered := KeepWhere(DataOf(e0, kind), results);
      var e1 := WithData(e0, kind, filtered);
      doc := doc[entryId := Object(e1)];
      if |filtered| == 0 {
        doc := doc[entryId := Object(WithField(e1, kind, Present(EmptyObj)))];
      }
      FinishKind(e, kind, LookupFor(lookups, kind), results);
    }

    /** `processEntry`: category first, then product; a `null` entry has no
        `category` or `product` and is left alone. */
    method ProcessEntry(entryId: string)
      requires entryId in doc
      modifies this
      ensures old(doc)[entryId].NullEntry? ==> doc == old(doc) && entryMap == old(entryMap)
      ensures old(doc)[entryId].Object? ==>
                && doc == old(doc)[entryId := Object(ProcessedEntry(lookups, old(doc)[entryId].entry))]
                && entryMap == EntryStamp(lookups, old(entryMap), entryId, old(doc)[entryId].entry)
    {
      if doc[entryId].NullEntry? {
        return;
      }
      ghost var before := doc;
      ProcessKind(entryId, Category);
      ghost var mid := doc;
      ProcessKind(entryId, Product);
      MapUpdateTwice(before, entryId, mid[entryId], doc[entryId]);
    }

    /** The loop of `processEntryFile` (index.js:98-112) over an already parsed
        document: every entry is processed in `Object.keys` order (any order
        here) and then gets the `publish_details` rule; a `null` entry makes
        index.js:104 throw, and the file then fails as a whole. */
    method ProcessEntryFile() returns (outcome: FileOutcome)
      modifies this
      ensures outcome == ReconcileFile(lookups, old(doc))
      ensures outcome.Written? ==> doc == outcome.doc && entryMap == outcome.summary
    {
      entryMap := map[];
      ghost var doc0 := doc;
      var pending := doc.Keys;
      while pending != {}
        invariant pending <= doc0.Keys && doc.Keys == doc0.Keys
        invariant forall x :: x in pending ==> doc[x] == doc0[x]
        invariant forall x :: x in doc0 && x !in pending ==>
                    doc0[x].Object? && doc[x] == Object(FinalEntry(lookups, doc0[x].entry))
        invariant entryMap == SummarySoFar(lookups, doc0, pending)
        decreases pending
      {
        var entryId :| entryId in pending;
        ghost var m0 := entryMap;
        ProcessEntry(entryId);
        if doc[entryId].NullEntry? {
          // `jsonData[entryID].category` throws; the file is not written and `{}` is returned.
          assert doc0[entryId].NullEntry?;
          outcome := Failed;
          return;
        }
        SummarySoFarStep(lookups, doc0, pending, entryId, m0);
        doc := doc[entryId := Object(WithPublishRule(doc[entryId].entry))];
        pending := pending - {entryId};
      }
      FileDone(lookups, doc0, doc, entryMap);
      outcome := Written(doc, entryMap);
    }
  }
}
