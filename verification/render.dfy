/** The two output passes of `parse_perspective_schema` and the report they
    make up: the dynamic pass walks the categorize rules (one group block
    each), the static pass walks the static groups (their filter rules by
    asset type), and the report frames both between the perspective name
    and `Done`. Each pass is a specification function over the lookup tables
    and a method whose loops produce the same lines. */
module Render {
  import opened Dicts
  import opened Strings
  import opened Schema
  import opened Formatting
  import opened Tables
  import opened Layout

  const Rule76 := Repeat('-', 76)
  const GroupTag := "Group:  "
  const FilterTag := "Filter: "
  const BlockTag := "Group Block: "
  const WhereTagLead := "        WHERE tag "
  const OrTagLead := "        OR tag "
  const StaticHeader := "Static Groups:\n"
  const OtherNote := "Note: Catches all assets not matched by other groups"
  const EmptyGroup := "        EMPTY GROUP"
  const DoneLine := "Done"
  const PerspectiveTag := "Perspective: "

  /** The dashed rule starts with none of the tags. */
  lemma RuleUntagged(p: string)
    requires p != [] && p[0] != '-'
    ensures !StartsWith(Rule76, p)
  {
    assert Rule76[0] == '-';
    DiffersAt(Rule76, p, 0);
  }

  /** `f"Group:  {group_name}"` */
  function GroupHeader(name: string): (r: string)
    ensures StartsWith(r, GroupTag)
  {
    StartsWithAppend(GroupTag, name);
    GroupTag + name
  }

  /** `f"Filter: {readable_asset}"` */
  function FilterLine(readable: string): (r: string)
    ensures StartsWith(r, FilterTag)
  {
    StartsWithAppend(FilterTag, readable);
    FilterTag + readable
  }

  /** `f"{lead}{tag_field} = '{val}'"` for the WHERE and OR tag lines */
  function TagLine(lead: string, tf: string, val: string): (r: string)
    ensures StartsWith(r, lead)
  {
    StartsWithAppend(lead, tf + " = " + Quoted(val));
    assert lead + tf + " = " + Quoted(val) == lead + (tf + " = " + Quoted(val));
    lead + tf + " = " + Quoted(val)
  }

  // ---------------------------------------------------------------------
  // Dynamic pass
  // ---------------------------------------------------------------------

  /** The tables the dynamic pass reads */
  datatype Lookups = Lookups(
    dynamic: Dict<RefId, Entry>,
    targets: Dict<Option<RefId>, seq<RefId>>,
    sources: set<RefId>)

  /** `[g for g in dynamic_groups.values() if g.get('blk_id') == ref_id]`;
      a rule without ref_id collects the groups without blk_id. */
  function BlockGroups(dyn: Dict<RefId, Entry>, blk: Option<RefId>): (r: seq<Entry>)
    ensures forall g :: g in r <==> g in Values(dyn) && g.blkId == blk
  {
    if dyn == [] then []
    else
      var n := |dyn| - 1;
      assert Values(dyn) == Values(dyn[..n]) + [dyn[n].1];
      BlockGroups(dyn[..n], blk) + if dyn[n].1.blkId == blk then [dyn[n].1] else []
  }

  /** One `OR tag` line per merged ref_id that names a dynamic group, with
      that group's `val` */
  function OrLines(ids: seq<RefId>, dyn: Dict<RefId, Entry>, tf: string): seq<string> {
    if ids == [] then []
    else
      var n := |ids| - 1;
      OrLines(ids[..n], dyn, tf) + MergeLine(ids[n], dyn, tf)
  }

  /** The `OR tag` line of merged ref_id `id`, if it names a dynamic group */
  function MergeLine(id: RefId, dyn: Dict<RefId, Entry>, tf: string): seq<string> {
    match Get(dyn, id)
    case Some(mg) => [TagLine(OrTagLead, tf, mg.val.GetOr(""))]
    case None => []
  }

  /** `group_ref_id in merged_sources` */
  predicate Suppressed(g: Entry, sources: set<RefId>) {
    g.refId.Some? && g.refId.value in sources
  }

  /** The lines of one dynamic group that is not merged into another */
  function GroupSection(g: Entry, readable: string, tf: string, lk: Lookups): seq<string> {
    [Rule76, "", GroupHeader(g.name.GetOr("")), "", FilterLine(readable),
     TagLine(WhereTagLead, tf, g.val.GetOr(""))]
    + OrLines(Get(lk.targets, g.refId).GetOr([]), lk.dynamic, tf)
    + [""]
  }

  function GroupSections(gs: seq<Entry>, readable: string, tf: string, lk: Lookups): seq<string> {
    if gs == [] then []
    else
      var n := |gs| - 1;
      GroupSections(gs[..n], readable, tf, lk)
        + if Suppressed(gs[n], lk.sources) then [] else GroupSection(gs[n], readable, tf, lk)
  }

  lemma GroupSectionsSnoc(gs: seq<Entry>, g: Entry, readable: string, tf: string, lk: Lookups)
    ensures GroupSections(gs + [g], readable, tf, lk)
            == GroupSections(gs, readable, tf, lk) + if Suppressed(g, lk.sources) then [] else GroupSection(g, readable, tf, lk)
  {
    assert (gs + [g])[..|gs|] == gs;
  }

  /** `f"Group Block: {block_name}\n"` */
  function BlockHeader(r: Rule): string {
    BlockTag + r.name.GetOr("") + "\n"
  }

  /** The lines of one categorize rule */
  function BlockSection(r: Rule, lk: Lookups): seq<string> {
    [BlockHeader(r)]
      + GroupSections(BlockGroups(lk.dynamic, r.refId), CamelToReadable(r.asset.GetOr("")), FirstOr(r.tagField), lk)
  }

  predicate IsCategorize(r: Rule) {
    r.kind == Some("categorize")
  }

  function DynamicPass(rules: seq<Rule>, lk: Lookups): seq<string> {
    if rules == [] then []
    else
      var n := |rules| - 1;
      DynamicPass(rules[..n], lk) + RuleSection(rules[n], lk)
  }

  /** What one rule writes in the dynamic pass */
  function RuleSection(r: Rule, lk: Lookups): seq<string> {
    if IsCategorize(r) then BlockSection(r, lk) else []
  }

  /** `for merged_ref_id in merge_targets[group_ref_id]` */
  method RenderOrLines(ids: seq<RefId>, dyn: Dict<RefId, Entry>, tf: string) returns (out: seq<string>)
    ensures out == OrLines(ids, dyn, tf)
  {
    out := [];
    for i := 0 to |ids|
      invariant out == OrLines(ids[..i], dyn, tf)
    {
      assert ids[..i + 1][..i] == ids[..i];
      var mergedGroup := Get(dyn, ids[i]);
      if mergedGroup.Some? {
        out := out + [TagLine(OrTagLead, tf, mergedGroup.value.val.GetOr(""))];
      }
    }
    assert ids[..|ids|] == ids;
  }

  /** The body of `for group in block_groups` for a group that is kept */
  method RenderGroup(g: Entry, readable: string, tf: string, lk: Lookups) returns (out: seq<string>)
    ensures out == GroupSection(g, readable, tf, lk)
  {
    out := [Rule76, "", GroupHeader(g.name.GetOr("")), "", FilterLine(readable),
            TagLine(WhereTagLead, tf, g.val.GetOr(""))];
    var ors := RenderOrLines(Get(lk.targets, g.refId).GetOr([]), lk.dynamic, tf);
    out := out + ors;
    out := out + [""];
  }

  /** `for group in block_groups`: merged-away groups are skipped */
  method RenderGroups(gs: seq<Entry>, readable: string, tf: string, lk: Lookups) returns (sections: seq<string>)
    ensures sections == GroupSections(gs, readable, tf, lk)
  {
    sections := [];
    for i := 0 to |gs|
      invariant sections == GroupSections(gs[..i], readable, tf, lk)
    {
      var group := gs[i];
      assert gs[..i + 1] == gs[..i] + [group];
      GroupSectionsSnoc(gs[..i], group, readable, tf, lk);
      if group.refId.Some? && group.refId.value in lk.sources {
        assert sections + [] == sections;
        continue;
      }
      var section := RenderGroup(group, readable, tf, lk);
      sections := sections + section;
    }
    assert gs[..|gs|] == gs;
  }

  /** The body of `for rule in rules` for a categorize rule */
  method RenderBlock(r: Rule, lk: Lookups) returns (out: seq<string>)
    ensures out == BlockSection(r, lk)
  {
    var readable := CamelToReadable(r.asset.GetOr(""));
    var tf := FirstOr(r.tagField);
    var blockGroups := BlockGroups(lk.dynamic, r.refId);
    var sections := RenderGroups(blockGroups, readable, tf, lk);
    out := [BlockHeader(r)] + sections;
  }

  method RenderDynamicGroups(rules: seq<Rule>, lk: Lookups) returns (out: seq<string>)
    ensures out == DynamicPass(rules, lk)
  {
    out := [];
    for i := 0 to |rules|
      invariant out == DynamicPass(rules[..i], lk)
    {
      assert rules[..i + 1][..i] == rules[..i];
      if rules[i].kind == Some("categorize") {
        var block := RenderBlock(rules[i], lk);
        out := out + block;
      }
    }
    assert rules[..|rules|] == rules;
  }

  // ---------------------------------------------------------------------
  // Static pass
  // ---------------------------------------------------------------------

  /** `filters_by_asset`: clause lists keyed by asset type, in first-seen
      order */
  function ByAsset(fs: seq<FilterRecord>): Dict<string, seq<seq<Clause>>> {
    if fs == [] then []
    else
      var n := |fs| - 1;
      Extend(ByAsset(fs[..n]), fs[n].asset, [fs[n].clauses])
  }

  /** One `Filter:` heading per asset type followed by its clause groups */
  function AssetSections(d: Dict<string, seq<seq<Clause>>>): seq<string> {
    if d == [] then []
    else
      var n := |d| - 1;
      AssetSections(d[..n]) + (["", FilterLine(CamelToReadable(d[n].0))] + LayoutLines(FormattedGroups(d[n].1)))
  }

  /** `group.get('is_other') == 'true'` */
  predicate IsOther(g: Entry) {
    g.isOther == Some("true")
  }

  /** The rule and header that open every static group */
  function StaticHead(g: Entry): seq<string> {
    [Rule76, "", GroupHeader(g.name.GetOr(""))]
  }

  /** The lines of one static group */
  function StaticSection(ref: RefId, g: Entry, filters: Dict<RefId, seq<FilterRecord>>): seq<string> {
    if IsOther(g) then StaticHead(g) + ["", OtherNote, ""]
    else StaticHead(g) + FilterBody(Get(filters, ref).GetOr([])) + [""]
  }

  /** What a static group that is not the catch-all shows for its filter
      records `fs` */
  function FilterBody(fs: seq<FilterRecord>): seq<string> {
    if fs != [] then AssetSections(ByAsset(fs)) else ["", EmptyGroup]
  }

  function StaticSections(statics: Dict<RefId, Entry>, filters: Dict<RefId, seq<FilterRecord>>): seq<string> {
    if statics == [] then []
    else
      var n := |statics| - 1;
      StaticSections(statics[..n], filters) + StaticSection(statics[n].0, statics[n].1, filters)
  }

  /** The heading is written only when there is a static group. */
  function StaticPass(statics: Dict<RefId, Entry>, filters: Dict<RefId, seq<FilterRecord>>): seq<string> {
    if statics == [] then [] else [StaticHeader] + StaticSections(statics, filters)
  }

  method GroupByAsset(fs: seq<FilterRecord>) returns (d: Dict<string, seq<seq<Clause>>>)
    ensures d == ByAsset(fs)
  {
    d := [];
    for i := 0 to |fs|
      invariant d == ByAsset(fs[..i])
    {
      assert fs[..i + 1][..i] == fs[..i];
      var asset := fs[i].asset;
      var current := Get(d, asset).GetOr([]);
      d := Put(d, asset, current + [fs[i].clauses]);
    }
    assert fs[..|fs|] == fs;
  }

  /** `for asset_type, clause_groups in filters_by_asset.items()` */
  method RenderAssets(d: Dict<string, seq<seq<Clause>>>) returns (out: seq<string>)
    ensures out == AssetSections(d)
  {
    out := [];
    for i := 0 to |d|
      invariant out == AssetSections(d[..i])
    {
      assert d[..i + 1][..i] == d[..i];
      var (assetType, clauseGroups) := d[i];
      var readable := CamelToReadable(assetType);
      var layout := RenderClauseGroups(clauseGroups);
      out := out + (["", FilterLine(readable)] + layout);
    }
    assert d[..|d|] == d;
  }

  method RenderStaticGroup(ref: RefId, g: Entry, filters: Dict<RefId, seq<FilterRecord>>) returns (out: seq<string>)
    ensures out == StaticSection(ref, g, filters)
  {
    out := [Rule76, "", GroupHeader(g.name.GetOr(""))];
    if g.isOther == Some("true") {
      out := out + ["", OtherNote, ""];
      return;
    }
    var fs := Get(filters, ref).GetOr([]);
    if fs != [] {
      var byAsset := GroupByAsset(fs);
      var assets := RenderAssets(byAsset);
      out := out + assets;
    } else {
      out := out + ["", EmptyGroup];
    }
    out := out + [""];
  }

  method RenderStaticGroups(statics: Dict<RefId, Entry>, filters: Dict<RefId, seq<FilterRecord>>) returns (out: seq<string>)
    ensures out == StaticPass(statics, filters)
  {
    out := [];
    if statics == [] {
      return;
    }
    var sections := [];
    for i := 0 to |statics|
      invariant sections == StaticSections(statics[..i], filters)
    {
      assert statics[..i + 1][..i] == statics[..i];
      var (ref, group) := statics[i];
      var section := RenderStaticGroup(ref, group, filters);
      sections := sections + section;
    }
    assert statics[..|statics|] == statics;
    out := [StaticHeader] + sections;
  }

  // ---------------------------------------------------------------------
  // The report
  // ---------------------------------------------------------------------

  /** `f"Perspective: {perspective_name}\n"`, the name defaulting to
      `Unknown` */
  function PerspectiveLine(s: Schema): string {
    PerspectiveTag + s.name.GetOr("Unknown") + "\n"
  }

  /** The lookups built from the schema's merges and constants */
  function LookupsOf(s: Schema): Lookups
    requires WellFormedConstants(s.constants.GetOr([]))
  {
    var ms := s.merges.GetOr([]);
    Lookups(Indexed(s.constants.GetOr([])).dynamic, MergeTargets(ms), MergedSources(ms))
  }

  /** `output_lines` */
  function ReportLines(doc: Document): (r: seq<string>)
    requires WellFormed(doc)
    ensures |r| >= 2 && r[0] == PerspectiveLine(SchemaOf(doc)) && r[|r| - 1] == DoneLine
  {
    var s := SchemaOf(doc);
    var rules := s.rules.GetOr([]);
    [PerspectiveLine(s)]
      + DynamicPass(rules, LookupsOf(s))
      + StaticPass(Indexed(s.constants.GetOr([])).statics, CollectFilters(rules))
      + [DoneLine]
  }

  /** `'\n'.join(output_lines)` */
  function Report(doc: Document): (text: string)
    requires WellFormed(doc)
    ensures StartsWith(text, PerspectiveLine(SchemaOf(doc)))
    ensures EndsWith(text, DoneLine)
  {
    Join(ReportLines(doc), "\n")
  }

  /** `parse_perspective_schema` */
  method ParseSchema(doc: Document) returns (text: string)
    requires WellFormed(doc)
    ensures text == Report(doc)
  {
    var s := doc.schema.GetOr(Schema(None, None, None, None));
    var rules := s.rules.GetOr([]);
    var constants := s.constants.GetOr([]);
    var merges := s.merges.GetOr([]);
    var index := BuildIndex(constants);
    var mergeTargets, mergedSources := ResolveMerges(merges);
    var staticGroupFilters := CollectFilterRules(rules);
    var dynamicLines := RenderDynamicGroups(rules, Lookups(index.dynamic, mergeTargets, mergedSources));
    var staticLines := RenderStaticGroups(index.statics, staticGroupFilters);
    var outputLines := [PerspectiveLine(s)] + dynamicLines + staticLines + [DoneLine];
    text := Join(outputLines, "\n");
  }

  // ---------------------------------------------------------------------
  // Properties of the dynamic pass
  // ---------------------------------------------------------------------

  /** The passes over several rule lists are the passes over each, in order. */
  lemma {:induction false} DynamicPassAppend(a: seq<Rule>, b: seq<Rule>, lk: Lookups)
    ensures DynamicPass(a + b, lk) == DynamicPass(a, lk) + DynamicPass(b, lk)
    decreases |b|
  {
    if b == [] {
      assert a + b == a;
    } else {
      var n := |b| - 1;
      var t := RuleSection(b[n], lk);
      assert DynamicPass(a + b, lk) == DynamicPass(a + b[..n], lk) + t by {
        assert (a + b)[..|a + b| - 1] == a + b[..n];
        assert (a + b)[|a + b| - 1] == b[n];
      }
      assert DynamicPass(b, lk) == DynamicPass(b[..n], lk) + t;
      assert DynamicPass(a + b[..n], lk) == DynamicPass(a, lk) + DynamicPass(b[..n], lk) by {
        DynamicPassAppend(a, b[..n], lk);
      }
      SnocAssoc(DynamicPass(a + b, lk), DynamicPass(a + b[..n], lk), DynamicPass(a, lk),
                DynamicPass(b[..n], lk), DynamicPass(b, lk), t);
    }
  }

  /** Rules other than `categorize` rules write nothing in the dynamic pass,
      wherever they stand. */
  lemma CategorizeOnly(a: seq<Rule>, r: Rule, b: seq<Rule>, lk: Lookups)
    requires !IsCategorize(r)
    ensures DynamicPass(a + [r] + b, lk) == DynamicPass(a + b, lk)
  {
    assert DynamicPass([r], lk) == [] by {
      assert [r][..0] == [];
    }
    assert DynamicPass(a + [r], lk) == DynamicPass(a, lk) by {
      DynamicPassAppend(a, [r], lk);
    }
    DynamicPassAppend(a + [r], b, lk);
    DynamicPassAppend(a, b, lk);
  }

  lemma {:induction false} OrLinesLead(ids: seq<RefId>, dyn: Dict<RefId, Entry>, tf: string)
    ensures forall l :: l in OrLines(ids, dyn, tf) ==> StartsWith(l, OrTagLead)
    decreases |ids|
  {
    if ids != [] {
      OrLinesLead(ids[..|ids| - 1], dyn, tf);
    }
  }

  /** No `OR tag` line looks like a group header or a `WHERE tag` line. */
  lemma OrLinesUntagged(ids: seq<RefId>, dyn: Dict<RefId, Entry>, tf: string)
    ensures forall l :: l in OrLines(ids, dyn, tf) ==> !StartsWith(l, GroupTag) && !StartsWith(l, WhereTagLead)
  {
    OrLinesLead(ids, dyn, tf);
    forall l | l in OrLines(ids, dyn, tf)
      ensures !StartsWith(l, GroupTag) && !StartsWith(l, WhereTagLead)
    {
      DiffersAt(l, GroupTag, 0);
      assert l[8] == OrTagLead[8];
      DiffersAt(l, WhereTagLead, 8);
    }
  }

  /** When every merged ref_id names a dynamic group, each gets one `OR tag`
      line, in merge order, carrying that group's value. */
  lemma {:induction false} OrLinesAllKnown(ids: seq<RefId>, dyn: Dict<RefId, Entry>, tf: string)
    requires forall id :: id in ids ==> id in Keys(dyn)
    ensures |OrLines(ids, dyn, tf)| == |ids|
    ensures forall i :: 0 <= i < |ids| ==>
              OrLines(ids, dyn, tf)[i] == TagLine(OrTagLead, tf, Get(dyn, ids[i]).value.val.GetOr(""))
    decreases |ids|
  {
    if ids != [] {
      var n := |ids| - 1;
      var prev := ids[..n];
      assert forall id :: id in prev ==> id in ids;
      OrLinesAllKnown(prev, dyn, tf);
      assert ids[n] in ids;
      var line := TagLine(OrTagLead, tf, Get(dyn, ids[n]).value.val.GetOr(""));
      assert OrLines(ids, dyn, tf) == OrLines(prev, dyn, tf) + [line] by {
        assert MergeLine(ids[n], dyn, tf) == [line];
      }
      var all, before := OrLines(ids, dyn, tf), OrLines(prev, dyn, tf);
      forall i | 0 <= i < |ids|
        ensures all[i] == TagLine(OrTagLead, tf, Get(dyn, ids[i]).value.val.GetOr(""))
      {
        if i < n {
          assert all[i] == before[i];
          assert prev[i] == ids[i];
        } else {
          assert all[i] == line;
        }
      }
    }
  }

  /** The groups of a block that are not merged into another group */
  function Kept(gs: seq<Entry>, sources: set<RefId>): (r: seq<Entry>)
    ensures forall g :: g in r <==> g in gs && !Suppressed(g, sources)
  {
    if gs == [] then []
    else
      var n := |gs| - 1;
      assert gs == gs[..n] + [gs[n]];
      Kept(gs[..n], sources) + if Suppressed(gs[n], sources) then [] else [gs[n]]
  }

  function Headers(gs: seq<Entry>): seq<string> {
    seq(|gs|, i requires 0 <= i < |gs| => GroupHeader(gs[i].name.GetOr("")))
  }

  lemma HeadersSnoc(gs: seq<Entry>, g: Entry)
    ensures Headers(gs + [g]) == Headers(gs) + [GroupHeader(g.name.GetOr(""))]
  {
    forall i | 0 <= i < |gs|
      ensures Headers(gs + [g])[i] == Headers(gs)[i]
    {
      assert (gs + [g])[i] == gs[i];
    }
  }

  /** A group's section has exactly one `Group:  ` line: its own header. */
  lemma SectionHeader(g: Entry, readable: string, tf: string, lk: Lookups)
    ensures Select(GroupSection(g, readable, tf, lk), GroupTag) == [GroupHeader(g.name.GetOr(""))]
  {
    var ors := OrLines(Get(lk.targets, g.refId).GetOr([]), lk.dynamic, tf);
    var a := [Rule76, ""];
    var x := GroupHeader(g.name.GetOr(""));
    var b := ["", FilterLine(readable), TagLine(WhereTagLead, tf, g.val.GetOr(""))] + ors + [""];
    assert GroupSection(g, readable, tf, lk) == a + [x] + b;
    assert forall l :: l in a ==> !StartsWith(l, GroupTag) by {
      RuleUntagged(GroupTag);
    }
    assert forall l :: l in b ==> !StartsWith(l, GroupTag) by {
      DiffersAt(FilterLine(readable), GroupTag, 0);
      DiffersAt(TagLine(WhereTagLead, tf, g.val.GetOr("")), GroupTag, 0);
      OrLinesUntagged(Get(lk.targets, g.refId).GetOr([]), lk.dynamic, tf);
    }
    SelectOnly(a, x, b, GroupTag);
  }

  /** A block lists, under `Group:  `, exactly its groups that are not merged
      into another, in dynamic-group order. */
  lemma {:induction false} GroupHeadersListed(gs: seq<Entry>, readable: string, tf: string, lk: Lookups)
    ensures Select(GroupSections(gs, readable, tf, lk), GroupTag) == Headers(Kept(gs, lk.sources))
    decreases |gs|
  {
    if gs != [] {
      var n := |gs| - 1;
      var g := gs[n];
      GroupHeadersListed(gs[..n], readable, tf, lk);
      var prev := GroupSections(gs[..n], readable, tf, lk);
      if Suppressed(g, lk.sources) {
        assert GroupSections(gs, readable, tf, lk) == prev + [] == prev;
        assert Kept(gs, lk.sources) == Kept(gs[..n], lk.sources) + [] == Kept(gs[..n], lk.sources);
      } else {
        assert GroupSections(gs, readable, tf, lk) == prev + GroupSection(g, readable, tf, lk);
        assert Kept(gs, lk.sources) == Kept(gs[..n], lk.sources) + [g];
        SelectAppend(prev, GroupSection(g, readable, tf, lk), GroupTag);
        SectionHeader(g, readable, tf, lk);
        HeadersSnoc(Kept(gs[..n], lk.sources), g);
      }
    }
  }

  function WhereLines(gs: seq<Entry>, tf: string): seq<string> {
    seq(|gs|, i requires 0 <= i < |gs| => TagLine(WhereTagLead, tf, gs[i].val.GetOr("")))
  }

  lemma WhereLinesSnoc(gs: seq<Entry>, g: Entry, tf: string)
    ensures WhereLines(gs + [g], tf) == WhereLines(gs, tf) + [TagLine(WhereTagLead, tf, g.val.GetOr(""))]
  {
    forall i | 0 <= i < |gs|
      ensures WhereLines(gs + [g], tf)[i] == WhereLines(gs, tf)[i]
    {
      assert (gs + [g])[i] == gs[i];
    }
  }

  /** A group's section has exactly one `WHERE tag` line, with its own value. */
  lemma SectionWhere(g: Entry, readable: string, tf: string, lk: Lookups)
    ensures Select(GroupSection(g, readable, tf, lk), WhereTagLead) == [TagLine(WhereTagLead, tf, g.val.GetOr(""))]
  {
    var ors := OrLines(Get(lk.targets, g.refId).GetOr([]), lk.dynamic, tf);
    var header := GroupHeader(g.name.GetOr(""));
    var a := [Rule76, "", header, "", FilterLine(readable)];
    var x := TagLine(WhereTagLead, tf, g.val.GetOr(""));
    var b := ors + [""];
    assert GroupSection(g, readable, tf, lk) == a + [x] + b;
    assert forall l :: l in a ==> !StartsWith(l, WhereTagLead) by {
      RuleUntagged(WhereTagLead);
      DiffersAt(header, WhereTagLead, 0);
      DiffersAt(FilterLine(readable), WhereTagLead, 0);
    }
    assert forall l :: l in b ==> !StartsWith(l, WhereTagLead) by {
      OrLinesUntagged(Get(lk.targets, g.refId).GetOr([]), lk.dynamic, tf);
    }
    SelectOnly(a, x, b, WhereTagLead);
  }

  /** Every group of a block that is kept gets exactly one `WHERE tag` line;
      merged-away groups get none. */
  lemma {:induction false} GroupWhereLines(gs: seq<Entry>, readable: string, tf: string, lk: Lookups)
    ensures Select(GroupSections(gs, readable, tf, lk), WhereTagLead) == WhereLines(Kept(gs, lk.sources), tf)
    decreases |gs|
  {
    if gs != [] {
      var n := |gs| - 1;
      var g := gs[n];
      GroupWhereLines(gs[..n], readable, tf, lk);
      var prev := GroupSections(gs[..n], readable, tf, lk);
      if Suppressed(g, lk.sources) {
        assert GroupSections(gs, readable, tf, lk) == prev + [] == prev;
        assert Kept(gs, lk.sources) == Kept(gs[..n], lk.sources) + [] == Kept(gs[..n], lk.sources);
      } else {
        assert GroupSections(gs, readable, tf, lk) == prev + GroupSection(g, readable, tf, lk);
        assert Kept(gs, lk.sources) == Kept(gs[..n], lk.sources) + [g];
        SelectAppend(prev, GroupSection(g, readable, tf, lk), WhereTagLead);
        SectionWhere(g, readable, tf, lk);
        WhereLinesSnoc(Kept(gs[..n], lk.sources), g, tf);
      }
    }
  }

  lemma {:induction false} OrLinesAppend(a: seq<RefId>, b: seq<RefId>, dyn: Dict<RefId, Entry>, tf: string)
    ensures OrLines(a + b, dyn, tf) == OrLines(a, dyn, tf) + OrLines(b, dyn, tf)
    decreases |b|
  {
    if b == [] {
      assert a + b == a;
    } else {
      var n := |b| - 1;
      var t := MergeLine(b[n], dyn, tf);
      assert OrLines(a + b, dyn, tf) == OrLines(a + b[..n], dyn, tf) + t by {
        assert (a + b)[..|a + b| - 1] == a + b[..n];
        assert (a + b)[|a + b| - 1] == b[n];
      }
      assert OrLines(b, dyn, tf) == OrLines(b[..n], dyn, tf) + t;
      assert OrLines(a + b[..n], dyn, tf) == OrLines(a, dyn, tf) + OrLines(b[..n], dyn, tf) by {
        OrLinesAppend(a, b[..n], dyn, tf);
      }
      SnocAssoc(OrLines(a + b, dyn, tf), OrLines(a + b[..n], dyn, tf), OrLines(a, dyn, tf),
                OrLines(b[..n], dyn, tf), OrLines(b, dyn, tf), t);
    }
  }

  /** A merged ref_id that names no dynamic group writes no `OR` line. */
  lemma MissingMergeSkipped(a: seq<RefId>, id: RefId, b: seq<RefId>, dyn: Dict<RefId, Entry>, tf: string)
    requires id !in Keys(dyn)
    ensures OrLines(a + [id] + b, dyn, tf) == OrLines(a + b, dyn, tf)
  {
    assert OrLines([id], dyn, tf) == [] by {
      assert [id][..0] == [];
      assert MergeLine(id, dyn, tf) == [];
    }
    assert OrLines(a + [id], dyn, tf) == OrLines(a, dyn, tf) by {
      OrLinesAppend(a, [id], dyn, tf);
    }
    OrLinesAppend(a + [id], b, dyn, tf);
    OrLinesAppend(a, b, dyn, tf);
  }

  // ---------------------------------------------------------------------
  // Properties of the static pass
  // ---------------------------------------------------------------------

  /** The asset type of each record, in record order */
  function AssetsOf(fs: seq<FilterRecord>): (r: seq<string>)
    ensures |r| == |fs|
  {
    if fs == [] then [] else AssetsOf(fs[..|fs| - 1]) + [fs[|fs| - 1].asset]
  }

  /** The clause lists of the records of asset type `a`, in record order */
  function ClausesFor(fs: seq<FilterRecord>, a: string): seq<seq<Clause>> {
    if fs == [] then []
    else
      var n := |fs| - 1;
      ClausesFor(fs[..n], a) + if fs[n].asset == a then [fs[n].clauses] else []
  }

  /** Asset types are listed in the order they are first seen. */
  lemma {:induction false} ByAssetKeys(fs: seq<FilterRecord>)
    ensures Keys(ByAsset(fs)) == Dedup(AssetsOf(fs))
    decreases |fs|
  {
    if fs != [] {
      var n := |fs| - 1;
      ByAssetKeys(fs[..n]);
      assert AssetsOf(fs)[..n] == AssetsOf(fs[..n]);
      assert AssetsOf(fs)[n] == fs[n].asset;
    }
  }

  /** One step of `ByAsset` on the entry of asset type `a` */
  lemma ByAssetStep(d: Dict<string, seq<seq<Clause>>>, f: FilterRecord, a: string, seen: bool, cls: seq<seq<Clause>>)
    requires Get(d, a) == if seen then Some(cls) else None
    requires !seen ==> cls == []
    ensures var more := if f.asset == a then [f.clauses] else [];
            Get(Extend(d, f.asset, [f.clauses]), a) == if seen || f.asset == a then Some(cls + more) else None
  {
    ExtendGet(d, f.asset, [f.clauses], a);
    assert cls + [] == cls;
    assert [] + [f.clauses] == [f.clauses];
  }

  /** Each asset type's entry holds the clauses of its records, in order. */
  lemma {:induction false} ByAssetGet(fs: seq<FilterRecord>, a: string)
    ensures Get(ByAsset(fs), a) == if a in AssetsOf(fs) then Some(ClausesFor(fs, a)) else None
    ensures a !in AssetsOf(fs) ==> ClausesFor(fs, a) == []
    decreases |fs|
  {
    if fs != [] {
      var n := |fs| - 1;
      var prev := fs[..n];
      ByAssetGet(prev, a);
      assert a in AssetsOf(fs) <==> a in AssetsOf(prev) || fs[n].asset == a;
      ByAssetStep(ByAsset(prev), fs[n], a, a in AssetsOf(prev), ClausesFor(prev, a));
    }
  }

  /** The lines of the asset sections: blank lines, `Filter:` headings and
      layout lines */
  lemma {:induction false} AssetSectionsShape(d: Dict<string, seq<seq<Clause>>>)
    ensures forall l :: l in AssetSections(d) ==> l == "" || StartsWith(l, FilterTag) || LayoutLine(l)
    decreases |d|
  {
    if d != [] {
      var n := |d| - 1;
      AssetSectionsShape(d[..n]);
      LayoutShape(FormattedGroups(d[n].1));
    }
  }

  function FilterLines(assets: seq<string>): seq<string> {
    seq(|assets|, i requires 0 <= i < |assets| => FilterLine(CamelToReadable(assets[i])))
  }

  lemma FilterLinesSnoc(ks: seq<string>, k: string)
    ensures FilterLines(ks + [k]) == FilterLines(ks) + [FilterLine(CamelToReadable(k))]
  {
    assert |FilterLines(ks + [k])| == |ks| + 1;
    forall i | 0 <= i < |ks| + 1
      ensures FilterLines(ks + [k])[i] == (FilterLines(ks) + [FilterLine(CamelToReadable(k))])[i]
    {
      if i < |ks| {
        assert (ks + [k])[i] == ks[i];
      }
    }
  }

  lemma NoFilterHeadings(lines: seq<string>)
    requires forall l :: l in lines ==> LayoutLine(l)
    ensures forall l :: l in lines ==> !StartsWith(l, FilterTag)
    ensures Select(lines, FilterTag) == []
  {
    forall l | l in lines
      ensures !StartsWith(l, FilterTag)
    {
      DiffersAt(l, FilterTag, 0);
    }
    SelectNone(lines, FilterTag);
  }

  /** The lines of one asset type: one `Filter:` heading among them */
  lemma AssetHeading(asset: string, gs: seq<seq<string>>)
    ensures var x := FilterLine(CamelToReadable(asset));
            Select(["", x] + LayoutLines(gs), FilterTag) == [x]
  {
    var layout := LayoutLines(gs);
    var x := FilterLine(CamelToReadable(asset));
    LayoutShape(gs);
    NoFilterHeadings(layout);
    assert ["", x] + layout == [""] + [x] + layout;
    SelectOnly([""], x, layout, FilterTag);
  }

  /** One `Filter:` heading per entry, in the entries' order */
  lemma {:induction false} AssetHeadings(d: Dict<string, seq<seq<Clause>>>)
    ensures Select(AssetSections(d), FilterTag) == FilterLines(Keys(d))
    decreases |d|
  {
    if d != [] {
      var n := |d| - 1;
      var prev := AssetSections(d[..n]);
      var here := ["", FilterLine(CamelToReadable(d[n].0))] + LayoutLines(FormattedGroups(d[n].1));
      AssetHeadings(d[..n]);
      assert AssetSections(d) == prev + here;
      SelectAppend(prev, here, FilterTag);
      AssetHeading(d[n].0, FormattedGroups(d[n].1));
      assert FilterLines(Keys(d)) == FilterLines(Keys(d[..n])) + [FilterLine(CamelToReadable(d[n].0))] by {
        KeysLast(d);
        FilterLinesSnoc(Keys(d[..n]), d[n].0);
      }
    }
  }

  lemma FilterHeadingsOf(fs: seq<FilterRecord>)
    ensures Select(FilterBody(fs), FilterTag) == FilterLines(Dedup(AssetsOf(fs)))
  {
    ByAssetKeys(fs);
    if fs != [] {
      AssetHeadings(ByAsset(fs));
    } else {
      DiffersAt(EmptyGroup, FilterTag, 0);
      SelectNone(["", EmptyGroup], FilterTag);
    }
  }

  /** The opening lines of a static group are none of the lines the
      properties below look for. */
  lemma StaticHeadClear(g: Entry)
    ensures forall l :: l in StaticHead(g) ==>
              !StartsWith(l, FilterTag) && l != EmptyGroup && l != StaticHeader
  {
    RuleUntagged(FilterTag);
    DiffersAt(GroupHeader(g.name.GetOr("")), FilterTag, 0);
    assert GroupHeader(g.name.GetOr(""))[0] == 'G';
    assert StaticHeader[0] == 'S';
  }

  /** A static group shows one `Filter:` heading per asset type, in the
      order the asset types first occur among its filter rules (none when
      it has no rules). */
  lemma StaticFilterOrder(ref: RefId, g: Entry, filters: Dict<RefId, seq<FilterRecord>>)
    requires !IsOther(g)
    ensures var fs := Get(filters, ref).GetOr([]);
            Select(StaticSection(ref, g, filters), FilterTag) == FilterLines(Dedup(AssetsOf(fs)))
  {
    var fs := Get(filters, ref).GetOr([]);
    StaticHeadClear(g);
    SelectFramed(StaticHead(g), FilterBody(fs), FilterTag);
    FilterHeadingsOf(fs);
  }

  /** No line of the asset sections is `        EMPTY GROUP`. */
  lemma NoEmptyGroupLine(d: Dict<string, seq<seq<Clause>>>)
    ensures EmptyGroup !in AssetSections(d)
  {
    AssetSectionsShape(d);
    assert !LayoutLine(EmptyGroup) by {
      assert EmptyGroup[8] == 'E';
    }
    assert !StartsWith(EmptyGroup, FilterTag) by {
      DiffersAt(EmptyGroup, FilterTag, 0);
    }
  }

  lemma EmptyGroupIff(ref: RefId, g: Entry, filters: Dict<RefId, seq<FilterRecord>>)
    ensures EmptyGroup in StaticSection(ref, g, filters) <==> !IsOther(g) && Get(filters, ref).GetOr([]) == []
  {
    var fs := Get(filters, ref).GetOr([]);
    var head := StaticHead(g);
    StaticHeadClear(g);
    if IsOther(g) {
      assert EmptyGroup !in StaticSection(ref, g, filters) by {
        assert StaticSection(ref, g, filters) == head + ["", OtherNote, ""];
        assert |OtherNote| != |EmptyGroup|;
      }
    } else if fs != [] {
      assert EmptyGroup !in StaticSection(ref, g, filters) by {
        var body := AssetSections(ByAsset(fs));
        assert StaticSection(ref, g, filters) == head + body + [""];
        NoEmptyGroupLine(ByAsset(fs));
      }
    } else {
      assert StaticSection(ref, g, filters) == head + ["", EmptyGroup] + [""];
    }
  }

  lemma NoStaticHeaderLine(d: Dict<string, seq<seq<Clause>>>)
    ensures StaticHeader !in AssetSections(d)
  {
    AssetSectionsShape(d);
    assert StaticHeader[0] == 'S';
    DiffersAt(StaticHeader, FilterTag, 0);
  }

  lemma NotStaticHeader(ref: RefId, g: Entry, filters: Dict<RefId, seq<FilterRecord>>)
    ensures StaticHeader !in StaticSection(ref, g, filters)
  {
    var fs := Get(filters, ref).GetOr([]);
    var head := StaticHead(g);
    StaticHeadClear(g);
    if IsOther(g) {
      assert StaticHeader !in StaticSection(ref, g, filters) by {
        assert StaticSection(ref, g, filters) == head + ["", OtherNote, ""];
        assert |OtherNote| != |StaticHeader|;
      }
    } else if fs != [] {
      assert StaticHeader !in StaticSection(ref, g, filters) by {
        var body := AssetSections(ByAsset(fs));
        assert StaticSection(ref, g, filters) == head + body + [""];
        NoStaticHeaderLine(ByAsset(fs));
      }
    } else {
      assert StaticSection(ref, g, filters) == head + ["", EmptyGroup] + [""];
      assert |EmptyGroup| != |StaticHeader|;
    }
  }

  lemma {:induction false} NoStaticHeaderInSections(statics: Dict<RefId, Entry>, filters: Dict<RefId, seq<FilterRecord>>)
    ensures StaticHeader !in StaticSections(statics, filters)
    decreases |statics|
  {
    if statics != [] {
      var n := |statics| - 1;
      NoStaticHeaderInSections(statics[..n], filters);
      NotStaticHeader(statics[n].0, statics[n].1, filters);
    }
  }

  /** `Static Groups:` is written exactly when there is a static group, and
      then once, as the first line of the pass. */
  lemma StaticHeaderOnce(statics: Dict<RefId, Entry>, filters: Dict<RefId, seq<FilterRecord>>)
    ensures StaticHeader in StaticPass(statics, filters) <==> statics != []
    ensures statics != [] ==>
              StaticPass(statics, filters)[0] == StaticHeader && StaticHeader !in StaticPass(statics, filters)[1..]
  {
    NoStaticHeaderInSections(statics, filters);
    if statics != [] {
      assert StaticPass(statics, filters)[1..] == StaticSections(statics, filters);
    }
  }

  /** The catch-all group prints its note whatever filter rules target it. */
  lemma OtherIgnoresFilters(ref: RefId, g: Entry, f1: Dict<RefId, seq<FilterRecord>>, f2: Dict<RefId, seq<FilterRecord>>)
    requires IsOther(g)
    ensures StaticSection(ref, g, f1) == StaticSection(ref, g, f2)
    ensures StaticSection(ref, g, f1) == [Rule76, "", GroupHeader(g.name.GetOr("")), "", OtherNote, ""]
  {
  }
}
