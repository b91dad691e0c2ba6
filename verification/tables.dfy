/** The three lookup stages of `parse_perspective_schema`: indexing the
    constants, resolving merges and collecting filter rules. Each stage is a
    specification function (a fold over the input list in declaration order)
    and a method whose loop computes it the way the renderer does. */
module Tables {
  import opened Dicts
  import opened Schema

  // ---------------------------------------------------------------------
  // Indexer
  // ---------------------------------------------------------------------

  /** `group_blocks`, `dynamic_groups` and `static_groups`, keyed by ref_id */
  datatype Index = Index(
    blocks: Dict<RefId, Entry>,
    dynamic: Dict<RefId, Entry>,
    statics: Dict<RefId, Entry>)

  /** `for e in es: d[e['ref_id']] = e` */
  function PutAll(d: Dict<RefId, Entry>, es: seq<Entry>): Dict<RefId, Entry>
    requires HasRefIds(es)
  {
    if es == [] then d
    else
      var n := |es| - 1;
      Put(PutAll(d, es[..n]), es[n].refId.value, es[n])
  }

  /** The last entry of `es` whose ref_id is `k` */
  function LastWith(es: seq<Entry>, k: RefId): (r: Option<Entry>)
    ensures r.Some? ==> r.value in es && r.value.refId == Some(k)
    ensures r.None? ==> forall e :: e in es ==> e.refId != Some(k)
  {
    if es == [] then None
    else
      var n := |es| - 1;
      assert es == es[..n] + [es[n]];
      if es[n].refId == Some(k) then Some(es[n]) else LastWith(es[..n], k)
  }

  function RefIds(es: seq<Entry>): seq<RefId>
    requires HasRefIds(es)
  {
    seq(|es|, i requires 0 <= i < |es| => es[i].refId.value)
  }

  /** Duplicate ref_ids: the last entry wins. */
  lemma {:induction false} PutAllGet(d: Dict<RefId, Entry>, es: seq<Entry>, k: RefId)
    requires HasRefIds(es)
    ensures Get(PutAll(d, es), k) == if LastWith(es, k).Some? then LastWith(es, k) else Get(d, k)
    decreases |es|
  {
    if es != [] {
      PutAllGet(d, es[..|es| - 1], k);
    }
  }

  /** Keys appear in the order their ref_id was first seen. */
  lemma {:induction false} PutAllKeys(es: seq<Entry>)
    requires HasRefIds(es)
    ensures Keys(PutAll([], es)) == Dedup(RefIds(es))
    decreases |es|
  {
    if es != [] {
      var n := |es| - 1;
      PutAllKeys(es[..n]);
      assert RefIds(es)[..n] == RefIds(es[..n]);
    }
  }

  /** One constant: entries of the three recognised kinds are indexed, any
      other kind is ignored. */
  function AddConstant(ix: Index, c: Constant): Index
    requires IndexedKind(c.kind) ==> HasRefIds(c.list.GetOr([]))
  {
    var list := c.list.GetOr([]);
    if c.kind == Some(BlockKind) then ix.(blocks := PutAll(ix.blocks, list))
    else if c.kind == Some(DynamicKind) then ix.(dynamic := PutAll(ix.dynamic, list))
    else if c.kind == Some(StaticKind) then ix.(statics := PutAll(ix.statics, list))
    else ix
  }

  function Indexed(cs: seq<Constant>): Index
    requires WellFormedConstants(cs)
  {
    if cs == [] then Index([], [], [])
    else
      var n := |cs| - 1;
      assert cs[n] in cs;
      AddConstant(Indexed(cs[..n]), cs[n])
  }

  /** `for e in xs + ys` is `for e in xs` followed by `for e in ys`. */
  lemma {:induction false} PutAllAppend(d: Dict<RefId, Entry>, xs: seq<Entry>, ys: seq<Entry>)
    requires HasRefIds(xs) && HasRefIds(ys)
    ensures HasRefIds(xs + ys)
    ensures PutAll(d, xs + ys) == PutAll(PutAll(d, xs), ys)
    decreases |ys|
  {
    assert forall e :: e in xs + ys ==> e in xs || e in ys;
    if ys == [] {
      assert xs + ys == xs;
    } else {
      var n := |ys| - 1;
      PutAllAppend(d, xs, ys[..n]);
      assert (xs + ys)[..|xs + ys| - 1] == xs + ys[..n];
      assert (xs + ys)[|xs + ys| - 1] == ys[n];
    }
  }

  /** The table of constant kind `kind` */
  function Table(ix: Index, kind: string): Dict<RefId, Entry> {
    if kind == BlockKind then ix.blocks
    else if kind == DynamicKind then ix.dynamic
    else ix.statics
  }

  /** The lists of all constants of kind `kind`, concatenated in order */
  function ListsOf(cs: seq<Constant>, kind: string): seq<Entry> {
    if cs == [] then []
    else
      var n := |cs| - 1;
      ListsOf(cs[..n], kind) + if cs[n].kind == Some(kind) then cs[n].list.GetOr([]) else []
  }

  lemma WellFormedPrefix(cs: seq<Constant>, n: nat)
    requires WellFormedConstants(cs) && n <= |cs|
    ensures WellFormedConstants(cs[..n])
  {
    assert forall c :: c in cs[..n] ==> c in cs;
  }

  lemma {:induction false} ListsOfRefIds(cs: seq<Constant>, kind: string)
    requires WellFormedConstants(cs) && IndexedKind(Some(kind))
    ensures HasRefIds(ListsOf(cs, kind))
    decreases |cs|
  {
    if cs != [] {
      var n := |cs| - 1;
      WellFormedPrefix(cs, n);
      ListsOfRefIds(cs[..n], kind);
      assert cs[n] in cs;
      var more := if cs[n].kind == Some(kind) then cs[n].list.GetOr([]) else [];
      assert forall e :: e in ListsOf(cs[..n], kind) + more ==> e in ListsOf(cs[..n], kind) || e in more;
    }
  }

  /** Each table is the whole constants list's entries of its kind,
      assigned in order from an empty table: constants of one kind add to
      the same dictionary one after the other. */
  lemma {:induction false} IndexedTable(cs: seq<Constant>, kind: string)
    requires WellFormedConstants(cs) && IndexedKind(Some(kind))
    ensures HasRefIds(ListsOf(cs, kind))
    ensures Table(Indexed(cs), kind) == PutAll([], ListsOf(cs, kind))
    decreases |cs|
  {
    ListsOfRefIds(cs, kind);
    if cs != [] {
      var n := |cs| - 1;
      var c := cs[n];
      WellFormedPrefix(cs, n);
      IndexedTable(cs[..n], kind);
      assert c in cs;
      var prev := ListsOf(cs[..n], kind);
      assert Indexed(cs) == AddConstant(Indexed(cs[..n]), c);
      if c.kind == Some(kind) {
        PutAllAppend([], prev, c.list.GetOr([]));
        assert ListsOf(cs, kind) == prev + c.list.GetOr([]);
      } else {
        assert ListsOf(cs, kind) == prev + [] == prev;
      }
    }
  }

  /** Over the whole constants list, a table's keys are the ref_ids of its
      kind in order of first appearance, and a ref_id given by several
      entries holds the last of them. */
  lemma IndexedKeysAndValues(cs: seq<Constant>, kind: string, k: RefId)
    requires WellFormedConstants(cs) && IndexedKind(Some(kind))
    ensures HasRefIds(ListsOf(cs, kind))
    ensures Keys(Table(Indexed(cs), kind)) == Dedup(RefIds(ListsOf(cs, kind)))
    ensures Get(Table(Indexed(cs), kind), k) == LastWith(ListsOf(cs, kind), k)
  {
    IndexedTable(cs, kind);
    PutAllKeys(ListsOf(cs, kind));
    PutAllGet([], ListsOf(cs, kind), k);
  }

  /** A constant of any other kind, wherever it stands, changes no table. */
  lemma {:induction false} OtherConstantIgnored(a: seq<Constant>, c: Constant, b: seq<Constant>)
    requires WellFormedConstants(a + [c] + b) && !IndexedKind(c.kind)
    ensures WellFormedConstants(a + b)
    ensures Indexed(a + [c] + b) == Indexed(a + b)
    decreases |b|
  {
    assert forall x :: x in a + b ==> x in a + [c] + b;
    if b == [] {
      assert a + [c] + b == a + [c] && a + b == a;
      assert (a + [c])[..|a|] == a;
    } else {
      var n := |b| - 1;
      assert a + [c] + b[..n] == (a + [c] + b)[..|a| + 1 + n];
      WellFormedPrefix(a + [c] + b, |a| + 1 + n);
      OtherConstantIgnored(a, c, b[..n]);
      assert (a + [c] + b)[..|a + [c] + b| - 1] == a + [c] + b[..n];
      assert (a + b)[..|a + b| - 1] == a + b[..n];
      assert (a + [c] + b)[|a + [c] + b| - 1] == b[n] == (a + b)[|a + b| - 1];
    }
  }

  /** One of the three `for ... in constant.get('list', [])` loops */
  method IndexList(d: Dict<RefId, Entry>, list: seq<Entry>) returns (r: Dict<RefId, Entry>)
    requires HasRefIds(list)
    ensures r == PutAll(d, list)
  {
    r := d;
    for j := 0 to |list|
      invariant r == PutAll(d, list[..j])
    {
      assert list[..j + 1][..j] == list[..j];
      r := Put(r, list[j].refId.value, list[j]);
    }
    assert list[..|list|] == list;
  }

  method BuildIndex(cs: seq<Constant>) returns (ix: Index)
    requires WellFormedConstants(cs)
    ensures ix == Indexed(cs)
  {
    var blocks, dynamic, statics := [], [], [];
    for i := 0 to |cs|
      invariant Index(blocks, dynamic, statics) == Indexed(cs[..i])
    {
      var c := cs[i];
      assert c in cs;
      assert cs[..i + 1][..i] == cs[..i];
      var list := c.list.GetOr([]);
      if c.kind == Some(BlockKind) {
        blocks := IndexList(blocks, list);
      } else if c.kind == Some(DynamicKind) {
        dynamic := IndexList(dynamic, list);
      } else if c.kind == Some(StaticKind) {
        statics := IndexList(statics, list);
      }
    }
    assert cs[..|cs|] == cs;
    ix := Index(blocks, dynamic, statics);
  }

  // ---------------------------------------------------------------------
  // Merge resolver
  // ---------------------------------------------------------------------

  predicate IsGroupMerge(m: Merge) {
    m.kind == Some("Group")
  }

  /** `merge.get('from', [])` */
  function SourcesOf(m: Merge): seq<RefId> {
    m.fromRefs.GetOr([])
  }

  /** `merge_targets`: keyed by `merge.get('to')`, which may be absent */
  function MergeTargets(ms: seq<Merge>): Dict<Option<RefId>, seq<RefId>> {
    if ms == [] then []
    else
      var n := |ms| - 1;
      var t := MergeTargets(ms[..n]);
      if IsGroupMerge(ms[n]) then Extend(t, ms[n].toRef, SourcesOf(ms[n])) else t
  }

  /** `merged_sources` */
  function MergedSources(ms: seq<Merge>): set<RefId> {
    if ms == [] then {}
    else
      var n := |ms| - 1;
      MergedSources(ms[..n]) + if IsGroupMerge(ms[n]) then set x | x in SourcesOf(ms[n]) else {}
  }

  /** The `from` lists of the Group merges into `to`, concatenated in
      declaration order */
  function FromListsInto(ms: seq<Merge>, to: Option<RefId>): seq<RefId> {
    if ms == [] then []
    else
      var n := |ms| - 1;
      FromListsInto(ms[..n], to) + if IsGroupMerge(ms[n]) && ms[n].toRef == to then SourcesOf(ms[n]) else []
  }

  predicate MergesInto(ms: seq<Merge>, to: Option<RefId>) {
    exists i :: 0 <= i < |ms| && IsGroupMerge(ms[i]) && ms[i].toRef == to
  }

  method ResolveMerges(ms: seq<Merge>) returns (targets: Dict<Option<RefId>, seq<RefId>>, sources: set<RefId>)
    ensures targets == MergeTargets(ms) && sources == MergedSources(ms)
  {
    targets, sources := [], {};
    for i := 0 to |ms|
      invariant targets == MergeTargets(ms[..i]) && sources == MergedSources(ms[..i])
    {
      var m := ms[i];
      assert ms[..i + 1][..i] == ms[..i];
      if m.kind == Some("Group") {
        var toRef := m.toRef;
        var fromRefs := m.fromRefs.GetOr([]);
        var current := Get(targets, toRef).GetOr([]);
        targets := Put(targets, toRef, current + fromRefs);
        sources := sources + set x | x in fromRefs;
      }
    }
    assert ms[..|ms|] == ms;
  }

  /** `merge_targets[t]` exists exactly when some Group merge names `t` as
      its target, and is the concatenation of their `from` lists. */
  lemma {:induction false} MergeTargetsGet(ms: seq<Merge>, to: Option<RefId>)
    ensures Get(MergeTargets(ms), to) == if MergesInto(ms, to) then Some(FromListsInto(ms, to)) else None
    ensures !MergesInto(ms, to) ==> FromListsInto(ms, to) == []
    decreases |ms|
  {
    if ms != [] {
      var n := |ms| - 1;
      var prev := ms[..n];
      MergeTargetsGet(prev, to);
      var here := IsGroupMerge(ms[n]) && ms[n].toRef == to;
      assert MergesInto(ms, to) <==> MergesInto(prev, to) || here by {
        if MergesInto(prev, to) {
          var i :| 0 <= i < n && IsGroupMerge(prev[i]) && prev[i].toRef == to;
          assert ms[i] == prev[i];
        }
        if MergesInto(ms, to) && !here {
          var i :| 0 <= i < |ms| && IsGroupMerge(ms[i]) && ms[i].toRef == to;
          assert prev[i] == ms[i];
        }
      }
      var d := MergeTargets(prev);
      if IsGroupMerge(ms[n]) {
        var k := ms[n].toRef;
        assert MergeTargets(ms) == Put(d, k, Get(d, k).GetOr([]) + SourcesOf(ms[n]));
        if k == to {
          assert Get(MergeTargets(ms), to) == Some(Get(d, to).GetOr([]) + SourcesOf(ms[n]));
          assert FromListsInto(ms, to) == FromListsInto(prev, to) + SourcesOf(ms[n]);
        } else {
          assert Get(MergeTargets(ms), to) == Get(d, to);
          assert FromListsInto(ms, to) == FromListsInto(prev, to) + [] == FromListsInto(prev, to);
          assert MergesInto(ms, to) == MergesInto(prev, to);
        }
      } else {
        assert MergeTargets(ms) == d;
        assert FromListsInto(ms, to) == FromListsInto(prev, to) + [] == FromListsInto(prev, to);
        assert MergesInto(ms, to) == MergesInto(prev, to);
      }
    }
  }

  /** `merged_sources` is the union of the `from` lists of all Group merges. */
  lemma {:induction false} MergedSourcesMembers(ms: seq<Merge>, x: RefId)
    ensures x in MergedSources(ms) <==> exists i :: 0 <= i < |ms| && IsGroupMerge(ms[i]) && x in SourcesOf(ms[i])
    decreases |ms|
  {
    if ms != [] {
      var n := |ms| - 1;
      MergedSourcesMembers(ms[..n], x);
      if x in MergedSources(ms[..n]) {
        var i :| 0 <= i < n && IsGroupMerge(ms[..n][i]) && x in SourcesOf(ms[..n][i]);
        assert ms[i] == ms[..n][i];
      }
      if exists i :: 0 <= i < |ms| && IsGroupMerge(ms[i]) && x in SourcesOf(ms[i]) {
        var i :| 0 <= i < |ms| && IsGroupMerge(ms[i]) && x in SourcesOf(ms[i]);
        if i < n {
          assert ms[..n][i] == ms[i];
        }
      }
    }
  }

  lemma MergesSnoc(ms: seq<Merge>, m: Merge)
    ensures MergeTargets(ms + [m]) ==
              if IsGroupMerge(m) then Extend(MergeTargets(ms), m.toRef, SourcesOf(m)) else MergeTargets(ms)
    ensures MergedSources(ms + [m]) ==
              MergedSources(ms) + if IsGroupMerge(m) then set x | x in SourcesOf(m) else {}
  {
    assert (ms + [m])[..|ms|] == ms;
  }

  /** A merge of any other type, wherever it stands, changes nothing. */
  lemma {:induction false} OtherMergeIgnored(a: seq<Merge>, m: Merge, b: seq<Merge>)
    requires !IsGroupMerge(m)
    ensures MergeTargets(a + [m] + b) == MergeTargets(a + b)
    ensures MergedSources(a + [m] + b) == MergedSources(a + b)
    decreases |b|
  {
    if b == [] {
      assert a + [m] + b == a + [m] && a + b == a;
      MergesSnoc(a, m);
    } else {
      var n := |b| - 1;
      OtherMergeIgnored(a, m, b[..n]);
      assert a + [m] + b == (a + [m] + b[..n]) + [b[n]];
      assert a + b == (a + b[..n]) + [b[n]];
      MergesSnoc(a + [m] + b[..n], b[n]);
      MergesSnoc(a + b[..n], b[n]);
    }
  }

  // ---------------------------------------------------------------------
  // Filter collector
  // ---------------------------------------------------------------------

  /** `{'asset': ..., 'clauses': ...}` */
  datatype FilterRecord = FilterRecord(asset: string, clauses: seq<Clause>)

  /** A filter rule with a non-empty `to` and no `fwd_to` key */
  predicate IsCollected(r: Rule) {
    r.kind == Some("filter") && r.toRef.Some? && r.toRef.value != "" && !r.hasFwdTo
  }

  function RecordOf(r: Rule): FilterRecord {
    FilterRecord(r.asset.GetOr(""), RuleClauses(r))
  }

  /** `static_group_filters` */
  function CollectFilters(rules: seq<Rule>): Dict<RefId, seq<FilterRecord>> {
    if rules == [] then []
    else
      var n := |rules| - 1;
      var d := CollectFilters(rules[..n]);
      if IsCollected(rules[n]) then Extend(d, rules[n].toRef.value, [RecordOf(rules[n])]) else d
  }

  /** One record per collected rule into `t`, in rule declaration order */
  function RecordsFor(rules: seq<Rule>, t: RefId): (r: seq<FilterRecord>)
    ensures forall f :: f in r ==> exists i :: 0 <= i < |rules| && IsCollected(rules[i]) && rules[i].toRef == Some(t) && f == RecordOf(rules[i])
  {
    if rules == [] then []
    else
      var n := |rules| - 1;
      var prev := RecordsFor(rules[..n], t);
      assert forall f :: f in prev ==> exists i :: 0 <= i < n && IsCollected(rules[i]) && rules[i].toRef == Some(t) && f == RecordOf(rules[i]);
      prev + if IsCollected(rules[n]) && rules[n].toRef == Some(t) then [RecordOf(rules[n])] else []
  }

  predicate CollectsInto(rules: seq<Rule>, t: RefId) {
    exists i :: 0 <= i < |rules| && IsCollected(rules[i]) && rules[i].toRef == Some(t)
  }

  method CollectFilterRules(rules: seq<Rule>) returns (filters: Dict<RefId, seq<FilterRecord>>)
    ensures filters == CollectFilters(rules)
  {
    filters := [];
    for i := 0 to |rules|
      invariant filters == CollectFilters(rules[..i])
    {
      var rule := rules[i];
      assert rules[..i + 1][..i] == rules[..i];
      if rule.kind == Some("filter") {
        var toRef := rule.toRef;
        if toRef.Some? && toRef.value != "" && !rule.hasFwdTo {
          var current := Get(filters, toRef.value).GetOr([]);
          var assetType := rule.asset.GetOr("");
          var clauses := RuleClauses(rule);
          filters := Put(filters, toRef.value, current + [FilterRecord(assetType, clauses)]);
        }
      }
    }
    assert rules[..|rules|] == rules;
  }

  /** `static_group_filters[t]` exists exactly when some collected rule
      targets `t`, and lists one record per such rule in declaration order. */
  lemma {:induction false} CollectFiltersGet(rules: seq<Rule>, t: RefId)
    ensures Get(CollectFilters(rules), t) == if CollectsInto(rules, t) then Some(RecordsFor(rules, t)) else None
    ensures !CollectsInto(rules, t) ==> RecordsFor(rules, t) == []
    decreases |rules|
  {
    if rules != [] {
      var n := |rules| - 1;
      var prev := rules[..n];
      CollectFiltersGet(prev, t);
      var here := IsCollected(rules[n]) && rules[n].toRef == Some(t);
      assert CollectsInto(rules, t) <==> CollectsInto(prev, t) || here by {
        if CollectsInto(prev, t) {
          var i :| 0 <= i < n && IsCollected(prev[i]) && prev[i].toRef == Some(t);
          assert rules[i] == prev[i];
        }
        if CollectsInto(rules, t) && !here {
          var i :| 0 <= i < |rules| && IsCollected(rules[i]) && rules[i].toRef == Some(t);
          assert prev[i] == rules[i];
        }
      }
      var d := CollectFilters(prev);
      if IsCollected(rules[n]) {
        var k := rules[n].toRef.value;
        assert CollectFilters(rules) == Put(d, k, Get(d, k).GetOr([]) + [RecordOf(rules[n])]);
        if k == t {
          assert Get(CollectFilters(rules), t) == Some(Get(d, t).GetOr([]) + [RecordOf(rules[n])]);
          assert RecordsFor(rules, t) == RecordsFor(prev, t) + [RecordOf(rules[n])];
        } else {
          assert Get(CollectFilters(rules), t) == Get(d, t);
          assert RecordsFor(rules, t) == RecordsFor(prev, t) + [] == RecordsFor(prev, t);
          assert CollectsInto(rules, t) == CollectsInto(prev, t);
        }
      } else {
        assert CollectFilters(rules) == d;
        assert RecordsFor(rules, t) == RecordsFor(prev, t) + [] == RecordsFor(prev, t);
        assert CollectsInto(rules, t) == CollectsInto(prev, t);
      }
    }
  }

  lemma CollectFiltersSnoc(rs: seq<Rule>, x: Rule)
    ensures CollectFilters(rs + [x]) ==
              if IsCollected(x) then Extend(CollectFilters(rs), x.toRef.value, [RecordOf(x)]) else CollectFilters(rs)
  {
    assert (rs + [x])[..|rs|] == rs;
  }

  /** A forwarded rule, wherever it stands, changes nothing. */
  lemma {:induction false} ForwardedRuleIgnored(a: seq<Rule>, r: Rule, b: seq<Rule>)
    requires r.hasFwdTo
    ensures CollectFilters(a + [r] + b) == CollectFilters(a + b)
    decreases |b|
  {
    var with, without := a + [r] + b, a + b;
    if b == [] {
      assert with == a + [r] && without == a;
      CollectFiltersSnoc(a, r);
    } else {
      var n := |b| - 1;
      ForwardedRuleIgnored(a, r, b[..n]);
      assert with == (a + [r] + b[..n]) + [b[n]];
      assert without == (a + b[..n]) + [b[n]];
      CollectFiltersSnoc(a + [r] + b[..n], b[n]);
      CollectFiltersSnoc(a + b[..n], b[n]);
    }
  }
}
