/** The decoded perspective schema, as typed values.

    Every key of the JSON document that the renderer reads with `.get(...)`
    is an `Option` here (None when the key is absent), so that the defaults
    the renderer applies are visible in the model. Keys of which only the
    presence matters are booleans.
 */
module Schema {
  import opened Dicts

  type RefId = string

  /** One condition of a filter rule: `op`, `val`, and either a `tag_field`
      or a `field` list. A `tag_field` key holding JSON null reads like an
      empty list, so `Some([])` stands for both. */
  datatype Clause = Clause(
    op: Option<string>,
    val: Option<string>,
    tagField: Option<seq<string>>,
    field: Option<seq<string>>)

  /** An element of a constant's `list`: a group block, a dynamic group or a
      static group (each kind uses some of these keys). */
  datatype Entry = Entry(
    refId: Option<RefId>,
    name: Option<string>,
    blkId: Option<RefId>,
    val: Option<string>,
    isOther: Option<string>)

  datatype Constant = Constant(kind: Option<string>, list: Option<seq<Entry>>)

  datatype Condition = Condition(clauses: Option<seq<Clause>>)

  /** A rule: `categorize` rules use refId, name, asset and tagField;
      `filter` rules use toRef, the presence of `fwd_to`, asset and condition. */
  datatype Rule = Rule(
    kind: Option<string>,
    refId: Option<RefId>,
    name: Option<string>,
    asset: Option<string>,
    tagField: Option<seq<string>>,
    toRef: Option<RefId>,
    hasFwdTo: bool,
    condition: Option<Condition>)

  datatype Merge = Merge(kind: Option<string>, toRef: Option<RefId>, fromRefs: Option<seq<RefId>>)

  datatype Schema = Schema(
    name: Option<string>,
    rules: Option<seq<Rule>>,
    constants: Option<seq<Constant>>,
    merges: Option<seq<Merge>>)

  /** The whole decoded document; the renderer reads its `schema` key. */
  datatype Document = Document(schema: Option<Schema>)

  const BlockKind := "Dynamic Group Block"
  const DynamicKind := "Dynamic Group"
  const StaticKind := "Static Group"

  /** `l[0] if l else ''` for a list read with `.get(key, [])` */
  function FirstOr(l: Option<seq<string>>): string {
    if l.Some? && l.value != [] then l.value[0] else ""
  }

  /** `rule.get('condition', {}).get('clauses', [])` */
  function RuleClauses(r: Rule): seq<Clause> {
    if r.condition.Some? then r.condition.value.clauses.GetOr([]) else []
  }

  /** The constant kinds whose entries are indexed by `ref_id`. */
  predicate IndexedKind(k: Option<string>) {
    k == Some(BlockKind) || k == Some(DynamicKind) || k == Some(StaticKind)
  }

  predicate HasRefIds(es: seq<Entry>) {
    forall e :: e in es ==> e.refId.Some?
  }

  /** Every entry of an indexed constant carries `ref_id` (the renderer
      raises KeyError otherwise). */
  predicate WellFormedConstants(cs: seq<Constant>) {
    forall c :: c in cs && IndexedKind(c.kind) ==> HasRefIds(c.list.GetOr([]))
  }

  /** `schema_data.get('schema', {})` */
  function SchemaOf(doc: Document): Schema {
    doc.schema.GetOr(Schema(None, None, None, None))
  }

  predicate WellFormed(doc: Document) {
    WellFormedConstants(SchemaOf(doc).constants.GetOr([]))
  }
}
