/** What reconciling an entry file does, as functions of the file's contents
    and of the two lookup services.  The imperative code in module
    EntryFiles is proved to compute exactly these values, and module
    Properties proves what they guarantee. */
module Reconcile {
  import opened Json
  import opened Lookup

  /** The two lookup services, one per kind: the response each gives for a
      key.  The bearer token and the URL are fixed for a run and are folded
      into the function. */
  datatype Resolvers = Resolvers(category: string -> Fetch, product: string -> Fetch)

  function LookupFor(rs: Resolvers, kind: Kind): string -> Fetch
  {
    match kind
    case Category => rs.category
    case Product => rs.product
  }

  /** The result of `processCategoryData` / `processProductData` for one
      reference: `Kept` (they returned `entryMap`) with the reference after
      the in-place `id` write and the key merged into the summary, if any;
      or `Dropped` (they returned `null`). */
  datatype Outcome = Kept(ref: Ref, recorded: Option<string>) | Dropped

  /** A reference without a key is kept untouched as a category and dropped
      as a product; a keyed reference is kept with its `id` overwritten
      exactly when the lookup yields an id. */
  function Verdict(kind: Kind, lookup: string -> Fetch, r: Ref): Outcome
  {
    if !HasKey(r) then
      if kind == Category then Kept(r, None) else Dropped
    else
      match ResolvedId(lookup(r.key.value))
      case Some(id) => Kept(r.(id := Some(id)), Some(r.key.value))
      case None => Dropped
  }

  /** The `data` array after every lookup has finished: each kept reference
      carries its written `id`, the others are as they were. */
  function Rewritten(kind: Kind, lookup: string -> Fetch, refs: seq<Ref>): (out: seq<Ref>)
    ensures |out| == |refs|
  {
    seq(|refs|, i requires 0 <= i < |refs| => AfterLookup(kind, lookup, refs[i]))
  }

  /** One reference once its own lookup has finished. */
  function AfterLookup(kind: Kind, lookup: string -> Fetch, r: Ref): Ref
  {
    match Verdict(kind, lookup, r)
    case Kept(r', _) => r'
    case Dropped => r
  }

  /** `results[i] !== null`, position by position. */
  function Survives(kind: Kind, lookup: string -> Fetch, refs: seq<Ref>): (keep: seq<bool>)
    ensures |keep| == |refs|
  {
    seq(|refs|, i requires 0 <= i < |refs| => Verdict(kind, lookup, refs[i]).Kept?)
  }

  /** `xs.filter((_, index) => keep[index])`. */
  function KeepWhere<T>(xs: seq<T>, keep: seq<bool>): (r: seq<T>)
    requires |keep| == |xs|
    ensures |r| <= |xs|
  {
    if xs == [] then []
    else (if keep[0] then [xs[0]] else []) + KeepWhere(xs[1..], keep[1..])
  }

  /** The positions `i` with `keep[i]`, in increasing order. */
  function TrueIndices(keep: seq<bool>): seq<nat>
  {
    if keep == [] then []
    else
      var tail := TrueIndices(keep[1..]);
      (if keep[0] then [0] else []) + seq(|tail|, j requires 0 <= j < |tail| => tail[j] + 1)
  }

  /** The new `data` array of one kind: the filter of index.js:60 and index.js:82. */
  function ReconcileRefs(kind: Kind, lookup: string -> Fetch, refs: seq<Ref>): seq<Ref>
  {
    KeepWhere(Rewritten(kind, lookup, refs), Survives(kind, lookup, refs))
  }

  /** The positions of `refs` whose reference survives. */
  function SurvivorPositions(kind: Kind, lookup: string -> Fetch, refs: seq<Ref>): seq<nat>
  {
    TrueIndices(Survives(kind, lookup, refs))
  }

  /** The key that the lookups of one `data` array leave in the summary when
      they complete one after the other in index order: the last one that
      was merged, or `None` if none was. */
  function LastRecorded(kind: Kind, lookup: string -> Fetch, refs: seq<Ref>): Option<string>
  {
    if refs == [] then None
    else
      var v := Verdict(kind, lookup, refs[|refs| - 1]);
      if v.Kept? && v.recorded.Some? then v.recorded
      else LastRecorded(kind, lookup, refs[..|refs| - 1])
  }

  function KeyOf(s: Summary, kind: Kind): Option<string>
  {
    match kind
    case Category => s.categoryKey
    case Product => s.productKey
  }

  function Other(kind: Kind): Kind
  {
    match kind
    case Category => Product
    case Product => Category
  }

  /** `entryMap[entryID] = { ...entryMap[entryID], categoryKey }` (or
      `productKey`) when a key is recorded; nothing happens otherwise. */
  function Stamp(m: map<string, Summary>, id: string, kind: Kind, key: Option<string>): (m': map<string, Summary>)
    ensures key.None? ==> m' == m
    ensures key.Some? ==> m'.Keys == m.Keys + {id} && KeyOf(m'[id], kind) == key
    ensures key.Some? ==> KeyOf(m'[id], Other(kind)) == (if id in m then KeyOf(m[id], Other(kind)) else None)
    ensures forall x :: x in m && x != id ==> x in m' && m'[x] == m[x]
  {
    match key
    case None => m
    case Some(k) => m[id := SetKey(if id in m then m[id] else Summary(None, None), kind, k)]
  }

  /** One kind of an entry after index.js:46-66 (category) or index.js:68-88 (product). */
  function ReconcileField(kind: Kind, lookup: string -> Fetch, f: KindField): KindField
  {
    if HasData(f) then
      var kept := ReconcileRefs(kind, lookup, f.obj.data.value);
      if |kept| == 0 then Present(EmptyObj) else Present(f.obj.(data := Some(kept)))
    else f
  }

  /** The key one kind of an entry leaves in the summary. */
  function FieldRecorded(kind: Kind, lookup: string -> Fetch, f: KindField): Option<string>
  {
    if HasData(f) then LastRecorded(kind, lookup, f.obj.data.value) else None
  }

  /** The entry after `processEntry`: category first, then product. */
  function ProcessedEntry(rs: Resolvers, e: Entry): Entry
  {
    var e1 := WithField(e, Category, ReconcileField(Category, rs.category, e.category));
    WithField(e1, Product, ReconcileField(Product, rs.product, e1.product))
  }

  /** index.js:104-106: `publish_details` becomes `[]` when neither kind has an
      own property left. */
  function WithPublishRule(e: Entry): Entry
  {
    if NoOwnKeys(e.category) && NoOwnKeys(e.product) then e.(publishDetails := Some([])) else e
  }

  /** An entry as it is written back to the file. */
  function FinalEntry(rs: Resolvers, e: Entry): Entry
  {
    WithPublishRule(ProcessedEntry(rs, e))
  }

  /** The summary map after `processEntry` ran on entry `id`. */
  function EntryStamp(rs: Resolvers, m: map<string, Summary>, id: string, e: Entry): map<string, Summary>
  {
    Stamp(Stamp(m, id, Category, FieldRecorded(Category, rs.category, e.category)),
          id, Product, FieldRecorded(Product, rs.product, e.product))
  }

  /** The summary record of one entry in a fresh summary map, if any. */
  function EntrySummary(rs: Resolvers, e: Entry): Option<Summary>
  {
    var c := FieldRecorded(Category, rs.category, e.category);
    var p := FieldRecorded(Product, rs.product, e.product);
    if c.None? && p.None? then None else Some(Summary(c, p))
  }

  /** What processing one file yields: the document written back and the
      summary returned, or a failure (nothing written, `{}` returned). */
  datatype FileOutcome = Written(doc: map<string, Slot>, summary: map<string, Summary>) | Failed

  /** `processEntryFile` after parsing: a `null` entry makes index.js:104 throw,
      which fails the whole file; otherwise every entry is reconciled. */
  function ReconcileFile(rs: Resolvers, doc: map<string, Slot>): FileOutcome
  {
    if exists id :: id in doc && doc[id].NullEntry? then Failed
    else Written(
      map id | id in doc :: Object(FinalEntry(rs, doc[id].entry)),
      map id | id in doc && EntrySummary(rs, doc[id].entry).Some? :: EntrySummary(rs, doc[id].entry).value)
  }
}
