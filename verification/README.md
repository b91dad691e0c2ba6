# CloudHealth perspective renderer, modelled in Dafny

`parse_perspective.py` reads a CloudHealth *perspective* schema (a JSON
document of constants, rules and merges) and writes a SQL-WHERE-like text
report: one block per categorize rule listing its dynamic groups, then one
section per static group listing its filter rules by asset type, framed by
a `Perspective: <name>` line and a final `Done`.

This project models the rendering engine on an already-decoded schema:

| file | module | what it models |
|---|---|---|
| `dicts.dfy` | `Dicts` | Python `dict` as an insertion-ordered association sequence (`Get`, `Put`, the `if k not in d: d[k] = []` + `extend` idiom) and `Option` for `.get` lookups |
| `strings.dfy` | `Strings` | prefixes, selecting lines by prefix, `'\n'.join`, ASCII lower-casing |
| `schema.dfy` | `Schema` | the decoded schema as typed datatypes; every key read with `.get` is an `Option` |
| `formatting.dfy` | `Formatting` | `camel_to_readable` and `format_condition_clause` |
| `tables.dfy` | `Tables` | the three lookup stages: indexing the constants, the merge table, the filter collection |
| `layout.dfy` | `Layout` | the two-level WHERE / AND / OR layout of one asset type's clause groups, and a reader that parses it back |
| `render.dfy` | `Render` | the dynamic and static output passes, the framing, and `parse_perspective_schema` itself |

Each stage of `parse_perspective_schema` is written twice: as a
specification function (a fold over the input list in declaration order)
and as a method whose loops do what the Python loops do, with an `ensures`
tying the method's result to the function. The properties the program
promises are then proved as lemmas about the functions.

## Model

| member | source | states |
|---|---|---|
| Dicts.Get | parse_perspective.py:201 | a lookup finds a value exactly when the key is present, and the value is the one stored under it |
| Dicts.Put | parse_perspective.py:84 | assignment stores the value; a new key goes last, an existing key keeps its position; other keys are untouched |
| Dicts.PutDistinct | parse_perspective.py:84 | a dictionary built by assignments never holds a key twice |
| Dicts.Dedup | parse_perspective.py:205-210 | the first-seen order of keys: no duplicates, same members as the input |
| Formatting.CamelToReadable | parse_perspective.py:19-23 | the output is as long as the input plus the number of A-Z letters after position 0, and starts with the input's first character |
| Formatting.ReadableRoundTrip | parse_perspective.py:22 | deleting each space that stands before an A-Z letter (after the first character) gives the input back |
| Formatting.SpacesBeforeCapitals | parse_perspective.py:22 | every input character keeps its order; the character before it in the output is an inserted space exactly when it is an A-Z letter at position 1 or later, consecutive capitals included |
| Formatting.FormatClause | parse_perspective.py:26-56 | the line starts with the field text; missing `op` means `=`; `=`, `!=`, `Contains` and any-case `does not contain` render `field KEYWORD 'val'`; any-case `is null` / `is not null` render no value; anything else is written verbatim as `field op 'val'`; every non-null form ends in the quoted value |
| Formatting.OperatorCase | parse_perspective.py:42-53 | `contains` and `CONTAINS` fall through to the verbatim form; `IS NULL`, `Is Null`, `Is Not Null` and `DOES NOT CONTAIN` are recognised |
| Formatting.ClauseField | parse_perspective.py:32-39 | the prefix is `tag ` exactly when the clause has a `tag_field` key, even an empty one; the name is the first list element or empty |
| Tables.IndexList | parse_perspective.py:83-84 | the loop over one constant's list computes the keyed table `PutAll` |
| Tables.BuildIndex | parse_perspective.py:79-92 | the loop over the constants builds the three tables `Indexed` describes; other constant kinds are ignored |
| Tables.PutAllGet | parse_perspective.py:79-92 | when two entries share a ref_id the later one is the one stored |
| Tables.PutAllKeys | parse_perspective.py:79-92 | a table's keys are the ref_ids in order of first appearance |
| Tables.PutAllAppend | parse_perspective.py:83-84 | assigning the entries of two lists one after the other is assigning their concatenation |
| Tables.IndexedTable | parse_perspective.py:79-92 | over the whole constants list, each of the three tables is the concatenated entries of every constant of its kind, assigned in order into one dictionary |
| Tables.IndexedKeysAndValues | parse_perspective.py:79-92 | over the whole constants list, a table's keys are its kind's ref_ids in order of first appearance, and a ref_id given by several entries, even in different constants, holds the last of them |
| Tables.OtherConstantIgnored | parse_perspective.py:79-92 | a constant of any other kind, wherever it stands, changes none of the three tables |
| Tables.ResolveMerges | parse_perspective.py:98-107 | the loop computes the merge table and the suppression set the fold functions describe |
| Tables.MergeTargetsGet | parse_perspective.py:98-106 | `merge_targets[t]` exists exactly when some Group merge targets `t`, and is the concatenation of their `from` lists in declaration order |
| Tables.MergedSourcesMembers | parse_perspective.py:107 | `merged_sources` is the union of the `from` lists of the Group merges |
| Tables.OtherMergeIgnored | parse_perspective.py:99 | a merge of any other type, wherever it stands, changes neither table |
| Tables.CollectFilterRules | parse_perspective.py:112-129 | the loop computes `static_group_filters` as the fold describes |
| Tables.CollectFiltersGet | parse_perspective.py:112-129 | a target has an entry exactly when some filter rule with a non-empty `to` and no `fwd_to` names it; the entry has one record per such rule, in rule order |
| Tables.ForwardedRuleIgnored | parse_perspective.py:116 | a rule with `fwd_to`, wherever it stands, changes nothing |
| Layout.GroupLinesAt | parse_perspective.py:228-249 | the line of each clause as the inner loops write it: WHERE / AND in group 0, `OR (` / `AND` / `AND ...)` in a later bracketed group |
| Layout.RenderFirstGroup | parse_perspective.py:226-233 | the group-0 loop writes the lines `GroupLines(..., true)` describes |
| Layout.RenderOrGroup | parse_perspective.py:234-249 | a later group's loop writes the lines `GroupLines(..., false)` describes |
| Layout.RenderClauseGroups | parse_perspective.py:221-249 | the loop over clause groups writes `LayoutLines` of the formatted clauses; empty groups write nothing but use up their index |
| Layout.LayoutRoundTrip | parse_perspective.py:221-249 | the layout is unambiguous: reading it back gives the non-empty groups with their clauses in order, so every `OR (` is closed by the group's last line |
| Layout.LayoutShape | parse_perspective.py:228-249 | every layout line starts with one of the four leads written there: eight spaces and `WHERE `, `AND ` or `OR `, or twelve spaces and `AND ` for a clause nested in an `OR (` group |
| Layout.WhereOnlyFirst | parse_perspective.py:221-233 | `WHERE` is written once, for the first clause of group 0, and not at all when group 0 is empty |
| Render.BlockGroups | parse_perspective.py:148-151 | a block's groups are exactly the dynamic groups whose `blk_id` equals the rule's `ref_id` |
| Render.RenderOrLines | parse_perspective.py:172-177 | the merge loop writes `OrLines` |
| Render.RenderGroup | parse_perspective.py:161-179 | a kept group writes `GroupSection` |
| Render.RenderGroups | parse_perspective.py:154-179 | the loop over a block's groups writes `GroupSections`: the section of each kept group, in order, and nothing for a merged-away group |
| Render.RenderBlock | parse_perspective.py:137-179 | one categorize rule writes its `Group Block:` header and then the sections of its groups (`BlockSection`) |
| Render.RenderDynamicGroups | parse_perspective.py:132-179 | the rule loop writes `DynamicPass` |
| Render.DynamicPassAppend | parse_perspective.py:132-135 | the dynamic pass over two rule lists is the two passes one after the other |
| Render.CategorizeOnly | parse_perspective.py:135 | rules other than categorize rules write nothing in the dynamic pass |
| Render.OrLinesAllKnown | parse_perspective.py:172-177 | when every merged id names a dynamic group, each gets one `OR tag` line, in merge order, with that group's value and the target block's tag field |
| Render.MissingMergeSkipped | parse_perspective.py:174-175 | a merged id that names no dynamic group writes no line |
| Render.Kept | parse_perspective.py:157-159 | the kept groups are exactly the block's groups that are not merge sources |
| Render.GroupHeadersListed | parse_perspective.py:154-166 | a block's `Group:` lines are exactly the headers of its kept groups, in dynamic-group order; a merged-away group gets none |
| Render.GroupWhereLines | parse_perspective.py:154-169 | every kept group gets exactly one `WHERE tag` line with its own value |
| Render.GroupByAsset | parse_perspective.py:205-210 | the loop builds `ByAsset` |
| Render.ByAssetKeys | parse_perspective.py:205-210 | asset types are keyed in order of first appearance |
| Render.ByAssetGet | parse_perspective.py:205-210 | each asset type holds the clause lists of its records, in record order |
| Render.RenderAssets | parse_perspective.py:214-249 | the asset loop writes `AssetSections` |
| Render.AssetHeadings | parse_perspective.py:214-217 | one `Filter:` heading per asset type, in the table's order |
| Render.StaticFilterOrder | parse_perspective.py:201-217 | a static group's `Filter:` headings name its asset types in order of first appearance among its filter rules |
| Render.EmptyGroupIff | parse_perspective.py:194-253 | `EMPTY GROUP` is written exactly for a group that is not the catch-all and has no filter rules |
| Render.OtherIgnoresFilters | parse_perspective.py:187-198 | the catch-all group writes only its note, whatever filters target it |
| Render.RenderStaticGroup | parse_perspective.py:185-255 | one static group writes `StaticSection` |
| Render.RenderStaticGroups | parse_perspective.py:182-255 | the static loop writes `StaticPass` |
| Render.StaticHeaderOnce | parse_perspective.py:182-183 | `Static Groups:` is written exactly when there is a static group, once, as the pass's first line |
| Render.ReportLines | parse_perspective.py:63-67 | the first line is `Perspective: <name>` (name defaulting to `Unknown`) and the last is `Done` |
| Render.Report | parse_perspective.py:257-259 | the joined text starts with the perspective line and ends with `Done` |
| Render.ParseSchema | parse_perspective.py:59-259 | `parse_perspective_schema` returns `Report(doc)` |

## Left out

- `fetch_perspective_from_api` (parse_perspective.py:262-288) is not part of this model: it is an HTTP request with status-code branching and process exit.
- `main` (parse_perspective.py:291-356) is not part of this model: argument parsing, file and console I/O.
- JSON decoding: the model starts from a typed `Document`. Ids, names, values and operators are strings and lists are lists; a JSON value of another type (a boolean `is_other`, a null `rules`, a non-list `from`) makes Python behave differently or raise, and is not represented.
- Python's runtime errors on malformed input: an entry of an indexed constant without `ref_id` raises `KeyError` in the source; the model makes "every such entry has a ref_id" a precondition (`Schema.WellFormed`).
- Formatting.FormatClause: `op.lower()` is modelled as ASCII lower-casing; Unicode case mappings that could turn a non-ASCII operator into one of the recognised names are not modelled.
- `group_blocks` is built (parse_perspective.py:83-84) and modelled in `Tables.Index.blocks`, but nothing reads it, as in the source.
- `first_filter_for_asset` (parse_perspective.py:213) is never read and has no counterpart.
- The truthiness test on a merged group (parse_perspective.py:175) is modelled as "the ref_id is present": every entry of `dynamic_groups` has a `ref_id` key, so it is never an empty dict.
- `output_lines` is one list appended to throughout; the methods return each pass's lines and the caller concatenates them, which yields the same list.
