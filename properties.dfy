/** What reconciliation guarantees, proved about the functions of module
    Reconcile (which the methods of module EntryFiles are proved to
    compute). */
module Properties {
  import opened Json
  import opened Lookup
  import opened Reconcile

  /** The lookup of a keyed reference yields an id. */
  predicate Resolves(lookup: string -> Fetch, r: Ref)
  {
    HasKey(r) && ResolvedId(lookup(r.key.value)).Some?
  }

  /** Whether a reference of the given kind stays in its `data` array,
      stated without reference to the code: keyed references stay exactly
      when they resolve; unkeyed ones stay as categories only. */
  predicate Stays(kind: Kind, lookup: string -> Fetch, r: Ref)
  {
    if HasKey(r) then Resolves(lookup, r) else kind == Category
  }

  /** A surviving reference: its `id` overwritten with the resolved id when
      it has a key, untouched otherwise. */
  function Stamped(lookup: string -> Fetch, r: Ref): Ref
  {
    if HasKey(r) then r.(id := ResolvedId(lookup(r.key.value))) else r
  }

  // ----- Filtering by position -----

  /** Every position `TrueIndices(keep)` lists is one where `keep` holds. */
  lemma {:induction false} TrueIndicesSound(keep: seq<bool>)
    ensures forall j :: 0 <= j < |TrueIndices(keep)| ==> TrueIndices(keep)[j] < |keep| && keep[TrueIndices(keep)[j]]
  {
    if keep != [] {
      TrueIndicesSound(keep[1..]);
      var tail := TrueIndices(keep[1..]);
      var head: seq<nat> := if keep[0] then [0] else [];
      var pos := TrueIndices(keep);
      assert pos == head + seq(|tail|, j requires 0 <= j < |tail| => tail[j] + 1);
      forall j | 0 <= j < |pos|
        ensures pos[j] < |keep| && keep[pos[j]]
      {
        if j >= |head| {
          var t := tail[j - |head|];
          assert pos[j] == t + 1 && t < |keep[1..]| && keep[1..][t];
        }
      }
    }
  }

  /** `TrueIndices(keep)` is strictly increasing. */
  lemma {:induction false} TrueIndicesIncreasing(keep: seq<bool>)
    ensures forall j, j' :: 0 <= j < j' < |TrueIndices(keep)| ==> TrueIndices(keep)[j] < TrueIndices(keep)[j']
  {
    if keep != [] {
      TrueIndicesIncreasing(keep[1..]);
      var tail := TrueIndices(keep[1..]);
      var head: seq<nat> := if keep[0] then [0] else [];
      var pos := TrueIndices(keep);
      assert pos == head + seq(|tail|, j requires 0 <= j < |tail| => tail[j] + 1);
      forall j, j' | 0 <= j < j' < |pos|
        ensures pos[j] < pos[j']
      {
        if j >= |head| {
          assert pos[j] == tail[j - |head|] + 1 && pos[j'] == tail[j' - |head|] + 1;
        }
      }
    }
  }

  /** Every position where `keep` holds is listed in `TrueIndices(keep)`. */
  lemma {:induction false} TrueIndicesComplete(keep: seq<bool>)
    ensures forall i :: 0 <= i < |keep| && keep[i] ==> i in TrueIndices(keep)
  {
    if keep != [] {
      TrueIndicesComplete(keep[1..]);
      var tail := TrueIndices(keep[1..]);
      var head: seq<nat> := if keep[0] then [0] else [];
      var pos := TrueIndices(keep);
      assert pos == head + seq(|tail|, j requires 0 <= j < |tail| => tail[j] + 1);
      forall i | 0 <= i < |keep| && keep[i]
        ensures i in pos
      {
        if i > 0 {
          assert keep[1..][i - 1];
          var j :| 0 <= j < |tail| && tail[j] == i - 1;
          assert pos[|head| + j] == i;
        }
      }
    }
  }

  /** The filter keeps element `pos[j]` as its `j`-th element. */
  lemma {:induction false} KeepWhereAt<T>(xs: seq<T>, keep: seq<bool>)
    requires |keep| == |xs|
    ensures var out := KeepWhere(xs, keep);
            var pos := TrueIndices(keep);
            && |out| == |pos|
            && (forall j :: 0 <= j < |pos| ==> pos[j] < |xs| && out[j] == xs[pos[j]])
  {
    if xs != [] {
      KeepWhereAt(xs[1..], keep[1..]);
      var tail := TrueIndices(keep[1..]);
      var head: seq<nat> := if keep[0] then [0] else [];
      var pos := TrueIndices(keep);
      assert pos == head + seq(|tail|, j requires 0 <= j < |tail| => tail[j] + 1);
      var out := KeepWhere(xs, keep);
      forall j | 0 <= j < |pos|
        ensures pos[j] < |xs| && out[j] == xs[pos[j]]
      {
        if j >= |head| {
          assert out[j] == KeepWhere(xs[1..], keep[1..])[j - |head|];
        }
      }
    }
  }

  /** The new `data` array holds exactly the references that stay, in their
      original order, each with its `id` written; which references stay is
      decided position by position. */
  lemma ReconcileRefsByPosition(kind: Kind, lookup: string -> Fetch, refs: seq<Ref>)
    ensures var out := ReconcileRefs(kind, lookup, refs);
            var pos := SurvivorPositions(kind, lookup, refs);
            && |out| == |pos|
            && (forall j, j' :: 0 <= j < j' < |pos| ==> pos[j] < pos[j'])
            && (forall i :: 0 <= i < |refs| ==> (i in pos <==> Stays(kind, lookup, refs[i])))
            && (forall j :: 0 <= j < |pos| ==> pos[j] < |refs| && out[j] == Stamped(lookup, refs[pos[j]]))
  {
    KeepWhereAt(Rewritten(kind, lookup, refs), Survives(kind, lookup, refs));
    TrueIndicesSound(Survives(kind, lookup, refs));
    TrueIndicesIncreasing(Survives(kind, lookup, refs));
    TrueIndicesComplete(Survives(kind, lookup, refs));
  }

  /** A kind whose references all fail ends with an empty `data` array, and
      only then. */
  lemma ReconcileRefsEmpty(kind: Kind, lookup: string -> Fetch, refs: seq<Ref>)
    ensures ReconcileRefs(kind, lookup, refs) == [] <==> forall i :: 0 <= i < |refs| ==> !Stays(kind, lookup, refs[i])
  {
    ReconcileRefsByPosition(kind, lookup, refs);
    var pos := SurvivorPositions(kind, lookup, refs);
    if pos != [] {
      assert pos[0] in pos;
    }
  }

  // ----- One reference at a time -----

  /** The filter peels off one reference at the front. */
  lemma ReconcileRefsCons(kind: Kind, lookup: string -> Fetch, refs: seq<Ref>)
    requires refs != []
    ensures ReconcileRefs(kind, lookup, refs)
            == (if Stays(kind, lookup, refs[0]) then [Stamped(lookup, refs[0])] else [])
               + ReconcileRefs(kind, lookup, refs[1..])
  {
    assert Rewritten(kind, lookup, refs)[1..] == Rewritten(kind, lookup, refs[1..]);
    assert Survives(kind, lookup, refs)[1..] == Survives(kind, lookup, refs[1..]);
  }

  /** Reconciling a concatenation reconciles each part. */
  lemma {:induction false} ReconcileRefsAppend(kind: Kind, lookup: string -> Fetch, a: seq<Ref>, b: seq<Ref>)
    ensures ReconcileRefs(kind, lookup, a + b) == ReconcileRefs(kind, lookup, a) + ReconcileRefs(kind, lookup, b)
  {
    if a == [] {
      assert a + b == b;
      assert ReconcileRefs(kind, lookup, a) == [];
    } else {
      ReconcileRefsCons(kind, lookup, a);
      ReconcileRefsCons(kind, lookup, a + b);
      assert (a + b)[1..] == a[1..] + b;
      ReconcileRefsAppend(kind, lookup, a[1..], b);
    }
  }

  /** The survivors of `t` split around position `j`. */
  lemma ReconcileRefsAround(kind: Kind, lookup: string -> Fetch, t: seq<Ref>, j: nat)
    requires j < |t|
    ensures ReconcileRefs(kind, lookup, t)
            == ReconcileRefs(kind, lookup, t[..j]) + ReconcileRefs(kind, lookup, [t[j]]) + ReconcileRefs(kind, lookup, t[j + 1..])
    ensures ReconcileRefs(kind, lookup, t[..j] + t[j + 1..])
            == ReconcileRefs(kind, lookup, t[..j]) + ReconcileRefs(kind, lookup, t[j + 1..])
  {
    assert t == t[..j] + ([t[j]] + t[j + 1..]);
    ReconcileRefsAppend(kind, lookup, t[..j], [t[j]] + t[j + 1..]);
    ReconcileRefsAppend(kind, lookup, [t[j]], t[j + 1..]);
    ReconcileRefsAppend(kind, lookup, t[..j], t[j + 1..]);
  }

  lemma MultisetWithout(t: seq<Ref>, j: nat)
    requires j < |t|
    ensures multiset(t[..j] + t[j + 1..]) == multiset(t) - multiset{t[j]}
  {
    assert t == t[..j] + [t[j]] + t[j + 1..];
  }

  lemma PositionOf(t: seq<Ref>, x: Ref) returns (j: nat)
    requires x in multiset(t)
    ensures j < |t| && t[j] == x
  {
    assert x in t;
    j :| 0 <= j < |t| && t[j] == x;
  }

  /** Taking the same reference out of two permutations of each other
      leaves permutations of each other. */
  lemma RemoveMatching(s: seq<Ref>, t: seq<Ref>, j: nat)
    requires multiset(s) == multiset(t) && s != [] && j < |t| && t[j] == s[0]
    ensures multiset(s[1..]) == multiset(t[..j] + t[j + 1..])
  {
    MultisetWithout(t, j);
    MultisetWithout(s, 0);
    assert s[..0] + s[1..] == s[1..];
  }

  /** Moving one surviving-or-not reference to the front keeps the
      multiset of survivors. */
  lemma PermutationStep(kind: Kind, lookup: string -> Fetch, s: seq<Ref>, t: seq<Ref>, j: nat)
    requires s != [] && j < |t| && t[j] == s[0]
    requires multiset(ReconcileRefs(kind, lookup, s[1..])) == multiset(ReconcileRefs(kind, lookup, t[..j] + t[j + 1..]))
    ensures multiset(ReconcileRefs(kind, lookup, s)) == multiset(ReconcileRefs(kind, lookup, t))
  {
    ReconcileRefsAround(kind, lookup, t, j);
    ReconcileRefsCons(kind, lookup, s);
    ReconcileRefsCons(kind, lookup, [s[0]]);
    assert [s[0]][1..] == [];
    assert ReconcileRefs(kind, lookup, []) == [];
  }

  /** Shuffling the references of a kind shuffles the survivors: the same
      references survive, with the same ids, however the input is ordered. */
  lemma {:induction false} ReconcileRefsPermutation(kind: Kind, lookup: string -> Fetch, s: seq<Ref>, t: seq<Ref>)
    requires multiset(s) == multiset(t)
    ensures multiset(ReconcileRefs(kind, lookup, s)) == multiset(ReconcileRefs(kind, lookup, t))
    decreases |s|
  {
    if s == [] {
      assert |t| == |multiset(t)| == 0;
    } else {
      var j := PositionOf(t, s[0]);
      RemoveMatching(s, t, j);
      ReconcileRefsPermutation(kind, lookup, s[1..], t[..j] + t[j + 1..]);
      PermutationStep(kind, lookup, s, t, j);
    }
  }

  // ----- Idempotence -----

  /** A surviving reference survives a second pass unchanged. */
  lemma StampedStays(kind: Kind, lookup: string -> Fetch, r: Ref)
    requires Stays(kind, lookup, r)
    ensures Stays(kind, lookup, Stamped(lookup, r))
    ensures Stamped(lookup, Stamped(lookup, r)) == Stamped(lookup, r)
  {
  }

  /** Reconciling a reconciled `data` array changes nothing. */
  lemma {:induction false} ReconcileRefsIdempotent(kind: Kind, lookup: string -> Fetch, refs: seq<Ref>)
    ensures ReconcileRefs(kind, lookup, ReconcileRefs(kind, lookup, refs)) == ReconcileRefs(kind, lookup, refs)
  {
    if refs == [] {
      assert ReconcileRefs(kind, lookup, refs) == [];
    } else {
      ReconcileRefsCons(kind, lookup, refs);
      ReconcileRefsIdempotent(kind, lookup, refs[1..]);
      var head := if Stays(kind, lookup, refs[0]) then [Stamped(lookup, refs[0])] else [];
      ReconcileRefsAppend(kind, lookup, head, ReconcileRefs(kind, lookup, refs[1..]));
      if head != [] {
        StampedStays(kind, lookup, refs[0]);
        ReconcileRefsCons(kind, lookup, head);
        assert head[1..] == [];
      }
      assert ReconcileRefs(kind, lookup, []) == [];
      assert ReconcileRefs(kind, lookup, head) == head;
    }
  }

  /** What one kind of an entry becomes: untouched without a non-empty
      `data` array, `{}` when every reference fails, and otherwise the same
      sub-object with only its `data` replaced by the survivors. */
  lemma ReconcileFieldSpec(kind: Kind, lookup: string -> Fetch, f: KindField)
    ensures !HasData(f) ==> ReconcileField(kind, lookup, f) == f
    ensures HasData(f) && (forall i :: 0 <= i < |f.obj.data.value| ==> !Stays(kind, lookup, f.obj.data.value[i]))
            ==> ReconcileField(kind, lookup, f) == Present(EmptyObj)
    ensures HasData(f) && (exists i :: 0 <= i < |f.obj.data.value| && Stays(kind, lookup, f.obj.data.value[i]))
            ==> var kept := ReconcileRefs(kind, lookup, f.obj.data.value);
                && kept != []
                && ReconcileField(kind, lookup, f) == Present(f.obj.(data := Some(kept)))
  {
    if HasData(f) {
      ReconcileRefsEmpty(kind, lookup, f.obj.data.value);
    }
  }

  lemma ReconcileFieldIdempotent(kind: Kind, lookup: string -> Fetch, f: KindField)
    ensures ReconcileField(kind, lookup, ReconcileField(kind, lookup, f)) == ReconcileField(kind, lookup, f)
  {
    if HasData(f) {
      ReconcileRefsIdempotent(kind, lookup, f.obj.data.value);
    }
  }

  /** Reconciling an entry that was already reconciled changes nothing,
      provided each key resolves as it did the first time. */
  lemma FinalEntryIdempotent(rs: Resolvers, e: Entry)
    ensures FinalEntry(rs, FinalEntry(rs, e)) == FinalEntry(rs, e)
  {
    ReconcileFieldIdempotent(Category, rs.category, e.category);
    ReconcileFieldIdempotent(Product, rs.product, e.product);
    var once := FinalEntry(rs, e);
    assert ProcessedEntry(rs, once) == once;
  }

  // ----- The publish_details rule -----

  /** A kind is left without own properties: it has a non-empty `data`
      array whose references all fail, or it has none and already had no
      own properties (absent, `null` or `{}`). */
  predicate EndsWithoutKeys(kind: Kind, lookup: string -> Fetch, f: KindField)
  {
    if HasData(f) then forall i :: 0 <= i < |f.obj.data.value| ==> !Stays(kind, lookup, f.obj.data.value[i])
    else NoOwnKeys(f)
  }

  lemma NoOwnKeysAfter(kind: Kind, lookup: string -> Fetch, f: KindField)
    ensures NoOwnKeys(ReconcileField(kind, lookup, f)) <==> EndsWithoutKeys(kind, lookup, f)
  {
    ReconcileFieldSpec(kind, lookup, f);
  }

  /** `publish_details` becomes `[]` exactly when both kinds end without own
      properties; otherwise it, and every other property of the entry but
      the two kinds, is left as it was. */
  lemma PublishDetailsRule(rs: Resolvers, e: Entry)
    ensures FinalEntry(rs, e).publishDetails
            == if EndsWithoutKeys(Category, rs.category, e.category) && EndsWithoutKeys(Product, rs.product, e.product)
               then Some([]) else e.publishDetails
    ensures FinalEntry(rs, e).rest == e.rest
    ensures FinalEntry(rs, e).category == ReconcileField(Category, rs.category, e.category)
    ensures FinalEntry(rs, e).product == ReconcileField(Product, rs.product, e.product)
  {
    NoOwnKeysAfter(Category, rs.category, e.category);
    NoOwnKeysAfter(Product, rs.product, e.product);
  }

  /** A kind written as `{ data: [] }` has an own property, so it keeps
      `publish_details` as it was, whatever the other kind does. */
  lemma EmptyDataArrayKeepsPublishDetails(rs: Resolvers, e: Entry, kind: Kind, rest: map<string, string>)
    requires FieldOf(e, kind) == Present(KindObj(Some([]), rest))
    ensures FinalEntry(rs, e).publishDetails == e.publishDetails
    ensures FieldOf(FinalEntry(rs, e), kind) == FieldOf(e, kind)
  {
    PublishDetailsRule(rs, e);
    ReconcileFieldSpec(kind, LookupFor(rs, kind), FieldOf(e, kind));
    match kind
    case Category =>
    case Product =>
  }

  // ----- The summary map -----

  /** The key a kind leaves in the summary is the key of one of its
      references whose lookup succeeded, and there is one exactly when some
      lookup succeeded. */
  lemma {:induction false} LastRecordedSpec(kind: Kind, lookup: string -> Fetch, refs: seq<Ref>)
    ensures LastRecorded(kind, lookup, refs).Some? <==> exists i :: 0 <= i < |refs| && Resolves(lookup, refs[i])
    ensures LastRecorded(kind, lookup, refs).Some? ==>
              exists i :: 0 <= i < |refs| && Resolves(lookup, refs[i]) && refs[i].key == LastRecorded(kind, lookup, refs)
  {
    if refs != [] {
      var n := |refs| - 1;
      var init := refs[..n];
      LastRecordedSpec(kind, lookup, init);
      var v := Verdict(kind, lookup, refs[n]);
      if v.Kept? && v.recorded.Some? {
        assert Resolves(lookup, refs[n]);
      } else {
        assert !Resolves(lookup, refs[n]);
        forall i | 0 <= i < |refs| && Resolves(lookup, refs[i])
          ensures exists i' :: 0 <= i' < |init| && Resolves(lookup, init[i'])
        {
          assert i < n && init[i] == refs[i];
        }
        if LastRecorded(kind, lookup, init).Some? {
          var i :| 0 <= i < |init| && Resolves(lookup, init[i]) && init[i].key == LastRecorded(kind, lookup, init);
          assert refs[i] == init[i];
        }
      }
    }
  }

  /** Some reference of a kind was looked up successfully. */
  predicate AnyResolved(lookup: string -> Fetch, f: KindField)
  {
    HasData(f) && exists i :: 0 <= i < |f.obj.data.value| && Resolves(lookup, f.obj.data.value[i])
  }

  /** `k` is the key of a reference of a kind that was looked up successfully. */
  predicate ResolvedKey(lookup: string -> Fetch, f: KindField, k: string)
  {
    HasData(f) && exists i :: 0 <= i < |f.obj.data.value| && Resolves(lookup, f.obj.data.value[i])
                              && f.obj.data.value[i].key == Some(k)
  }

  /** An entry gets a summary record exactly when one of its lookups
      succeeded; each field of the record is set exactly when a lookup of
      that kind succeeded, and holds one of the keys that did. */
  lemma EntrySummarySpec(rs: Resolvers, e: Entry)
    ensures EntrySummary(rs, e).Some? <==> AnyResolved(rs.category, e.category) || AnyResolved(rs.product, e.product)
    ensures EntrySummary(rs, e).Some? ==>
              var s := EntrySummary(rs, e).value;
              && (s.categoryKey.Some? <==> AnyResolved(rs.category, e.category))
              && (s.productKey.Some? <==> AnyResolved(rs.product, e.product))
              && (s.categoryKey.Some? ==> ResolvedKey(rs.category, e.category, s.categoryKey.value))
              && (s.productKey.Some? ==> ResolvedKey(rs.product, e.product, s.productKey.value))
  {
    if HasData(e.category) {
      LastRecordedSpec(Category, rs.category, e.category.obj.data.value);
    }
    if HasData(e.product) {
      LastRecordedSpec(Product, rs.product, e.product.obj.data.value);
    }
  }

  // ----- A whole file -----

  /** A file fails exactly when one of its entries is `null`; otherwise it
      is written with the same entry IDs, each entry reconciled, and the
      summary has a record for exactly the entries with a successful lookup. */
  lemma ReconcileFileSpec(rs: Resolvers, doc: map<string, Slot>)
    ensures ReconcileFile(rs, doc).Failed? <==> exists id :: id in doc && doc[id].NullEntry?
    ensures ReconcileFile(rs, doc).Written? ==>
              var out := ReconcileFile(rs, doc);
              && out.doc.Keys == doc.Keys
              && (forall id :: id in doc ==> out.doc[id] == Object(FinalEntry(rs, doc[id].entry)))
              && (forall id :: id in out.summary <==>
                    id in doc && (AnyResolved(rs.category, doc[id].entry.category) || AnyResolved(rs.product, doc[id].entry.product)))
  {
    if ReconcileFile(rs, doc).Written? {
      forall id | id in doc
        ensures EntrySummary(rs, doc[id].entry).Some?
                <==> AnyResolved(rs.category, doc[id].entry.category) || AnyResolved(rs.product, doc[id].entry.product)
      {
        EntrySummarySpec(rs, doc[id].entry);
      }
    }
  }

  // ----- Two worked files -----

  /** A category reference whose key resolves gets the resolved id and its
      key in the summary; the file is otherwise unchanged. */
  lemma ResolvedCategoryScenario()
    ensures
      var lookup := (k: string) => if k == "k1" then Responded(200, Parsed(Some("cat-123"))) else Responded(404, Parsed(None));
      var rs := Resolvers(lookup, lookup);
      var before := Entry(Present(KindObj(Some([Ref(Some("k1"), None, map[])]), map[])), Absent, None, map[]);
      var after := Entry(Present(KindObj(Some([Ref(Some("k1"), Some("cat-123"), map[])]), map[])), Absent, None, map[]);
      ReconcileFile(rs, map["e1" := Object(before)])
        == Written(map["e1" := Object(after)], map["e1" := Summary(Some("k1"), None)])
  {
    var lookup := (k: string) => if k == "k1" then Responded(200, Parsed(Some("cat-123"))) else Responded(404, Parsed(None));
    var rs := Resolvers(lookup, lookup);
    var refs := [Ref(Some("k1"), None, map[])];
    assert Rewritten(Category, lookup, refs) == [Ref(Some("k1"), Some("cat-123"), map[])];
    assert Survives(Category, lookup, refs) == [true];
    assert LastRecorded(Category, lookup, refs) == Some("k1") by {
      assert refs[..0] == [];
    }
    var before := Entry(Present(KindObj(Some(refs), map[])), Absent, None, map[]);
    var after := Entry(Present(KindObj(Some([Ref(Some("k1"), Some("cat-123"), map[])]), map[])), Absent, None, map[]);
    assert ReconcileRefs(Category, lookup, refs) == [Ref(Some("k1"), Some("cat-123"), map[])];
    assert ProcessedEntry(rs, before) == after;
    assert FinalEntry(rs, before) == after;
    assert EntrySummary(rs, before) == Some(Summary(Some("k1"), None));
  }

  /** A category whose only reference is not found becomes `{}`; with an
      empty `product` record beside it, `publish_details` is cleared and no
      summary record is made. */
  lemma UnresolvedCategoryScenario()
    ensures
      var lookup := (k: string) => Responded(404, Parsed(None));
      var rs := Resolvers(lookup, lookup);
      var before := Entry(Present(KindObj(Some([Ref(Some("bad"), None, map[])]), map[])), Present(EmptyObj), Some(["x"]), map[]);
      var after := Entry(Present(EmptyObj), Present(EmptyObj), Some([]), map[]);
      ReconcileFile(rs, map["e2" := Object(before)]) == Written(map["e2" := Object(after)], map[])
  {
    var lookup := (k: string) => Responded(404, Parsed(None));
    var refs := [Ref(Some("bad"), None, map[])];
    assert Survives(Category, lookup, refs) == [false];
    assert LastRecorded(Category, lookup, refs) == None by {
      assert refs[..0] == [];
    }
  }
}
