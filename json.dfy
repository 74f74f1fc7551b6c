/** The shape of an entry file as the migration reads it: a JSON object that
    maps entry IDs to entries, each entry holding optional `category` and
    `product` sub-objects whose `data` arrays hold references.  Only the
    fields the reconciliation looks at are modelled structurally; every other
    field is carried along unchanged in a `rest` map. */
module Json {

  datatype Option<T> = None | Some(value: T)

  /** The two reference kinds, looked up against two different endpoints. */
  datatype Kind = Category | Product

  /** One element of a `data` array.  `NonObject` stands for `null` or any
      other element that is not an object (it has no `key` property).
      `key` and `id` are `None` when the property is absent; `rest` holds
      the other properties and never the names `key` or `id`. */
  datatype Ref =
    | NonObject
    | Ref(key: Option<string>, id: Option<string>, rest: map<string, string>)

  /** The `category` or `product` sub-object: its `data` array, if present,
      and its own properties other than `data` (so `rest` never holds the
      name `data`). */
  datatype KindObj = KindObj(data: Option<seq<Ref>>, rest: map<string, string>)

  /** The value of the `category` or `product` property of an entry. */
  datatype KindField = Absent | Null | Present(obj: KindObj)

  /** An entry object; `publishDetails` is `None` when the property is absent,
      and `rest` holds the other properties, never `category`, `product` or
      `publish_details`. */
  datatype Entry = Entry(
    category: KindField,
    product: KindField,
    publishDetails: Option<seq<string>>,
    rest: map<string, string>)

  /** The value stored under one entry ID: `null` or an entry object. */
  datatype Slot = NullEntry | Object(entry: Entry)

  /** The per-entry record of the summary map (`entryMap[entryID]`). */
  datatype Summary = Summary(categoryKey: Option<string>, productKey: Option<string>)

  /** The empty record `{}`. */
  const EmptyObj := KindObj(None, map[])

  /** JavaScript truthiness of `ref.key` (with `!ref` folded in): the
      reference is an object whose key is present and non-empty. */
  predicate HasKey(r: Ref)
  {
    r.Ref? && r.key.Some? && r.key.value != ""
  }

  /** `Object.keys(x).length` of a sub-object. */
  function OwnKeyCount(o: KindObj): nat
  {
    |o.rest| + (if o.data.Some? then 1 else 0)
  }

  /** `Object.keys(field || {}).length === 0`: the field is absent, null, or
      an object without own properties. */
  predicate NoOwnKeys(f: KindField)
  {
    f.Absent? || f.Null? || OwnKeyCount(f.obj) == 0
  }

  /** `field?.data?.length` is truthy: there is a non-empty `data` array. */
  predicate HasData(f: KindField)
  {
    f.Present? && f.obj.data.Some? && |f.obj.data.value| > 0
  }

  function FieldOf(e: Entry, kind: Kind): KindField
  {
    match kind
    case Category => e.category
    case Product => e.product
  }

  function WithField(e: Entry, kind: Kind, f: KindField): (e': Entry)
    ensures FieldOf(e', kind) == f
    ensures forall k :: k != kind ==> FieldOf(e', k) == FieldOf(e, k)
    ensures e'.publishDetails == e.publishDetails && e'.rest == e.rest
  {
    match kind
    case Category => e.(category := f)
    case Product => e.(product := f)
  }

  /** `{ ...s, categoryKey: key }` or `{ ...s, productKey: key }`. */
  function SetKey(s: Summary, kind: Kind, key: string): (s': Summary)
    ensures kind == Category ==> s'.categoryKey == Some(key) && s'.productKey == s.productKey
    ensures kind == Product ==> s'.productKey == Some(key) && s'.categoryKey == s.categoryKey
  {
    match kind
    case Category => s.(categoryKey := Some(key))
    case Product => s.(productKey := Some(key))
  }
}
