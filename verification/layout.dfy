/** The clause-group layout of a static group's filter (one asset type):
    rule-level OR over clause-level AND, exactly two levels deep.

    The first group (index 0) is written `WHERE c0` / `AND ci`; every later
    group is OR-ed on: a single clause as `OR c`, several clauses as
    `OR (c0`, `AND ci` ..., `AND cn)`. Empty groups write nothing but still
    use up their index. */
module Layout {
  import opened Strings
  import opened Schema
  import opened Formatting

  const WhereLead := "        WHERE "
  const AndLead := "        AND "
  const OrLead := "        OR "
  const OrOpen := "        OR ("
  const NestedAnd := "            AND "

  /** The clauses rendered one by one */
  function Formatted(cs: seq<Clause>): seq<string> {
    seq(|cs|, i requires 0 <= i < |cs| => FormatClause(cs[i]))
  }

  /** Every clause group rendered clause by clause */
  function FormattedGroups(gs: seq<seq<Clause>>): seq<seq<string>> {
    seq(|gs|, i requires 0 <= i < |gs| => Formatted(gs[i]))
  }

  function Prefixed(p: string, ts: seq<string>): seq<string> {
    seq(|ts|, i requires 0 <= i < |ts| => p + ts[i])
  }

  /** The lines of one clause group, given its rendered clauses `cs`;
      `first` is `group_idx == 0` */
  function GroupLines(cs: seq<string>, first: bool): (r: seq<string>)
    ensures |r| == |cs|
  {
    if cs == [] then []
    else if first then [WhereLead + cs[0]] + Prefixed(AndLead, cs[1..])
    else if |cs| == 1 then [OrLead + cs[0]]
    else
      var n := |cs| - 1;
      [OrOpen + cs[0]] + Prefixed(NestedAnd, cs[1..n] + [cs[n] + ")"])
  }

  /** Groups after the first, each OR-ed onto what comes before */
  function OrGroups(gs: seq<seq<string>>): seq<string> {
    if gs == [] then [] else GroupLines(gs[0], false) + OrGroups(gs[1..])
  }

  /** All clause groups of one asset type, given their rendered clauses */
  function LayoutLines(gs: seq<seq<string>>): seq<string> {
    if gs == [] then [] else GroupLines(gs[0], true) + OrGroups(gs[1..])
  }

  lemma {:induction false} OrGroupsSnoc(gs: seq<seq<string>>, g: seq<string>)
    ensures OrGroups(gs + [g]) == OrGroups(gs) + GroupLines(g, false)
    decreases |gs|
  {
    if gs == [] {
      assert OrGroups([g]) == GroupLines(g, false) + OrGroups([]);
    } else {
      assert (gs + [g])[0] == gs[0];
      assert (gs + [g])[1..] == gs[1..] + [g];
      OrGroupsSnoc(gs[1..], g);
    }
  }

  lemma LayoutSnoc(gs: seq<seq<string>>, g: seq<string>)
    ensures LayoutLines(gs + [g]) == LayoutLines(gs) + GroupLines(g, gs == [])
  {
    if gs == [] {
      assert LayoutLines([g]) == GroupLines(g, true) + OrGroups([]);
    } else {
      assert (gs + [g])[0] == gs[0];
      assert (gs + [g])[1..] == gs[1..] + [g];
      OrGroupsSnoc(gs[1..], g);
    }
  }

  /** The line that clause `k` of a group gets, as the renderer's inner loop
      writes it */
  function ClauseLine(cs: seq<string>, k: nat, first: bool): string
    requires k < |cs|
  {
    if first then (if k == 0 then WhereLead + cs[k] else AndLead + cs[k])
    else if k == 0 then OrOpen + cs[k]
    else if k == |cs| - 1 then NestedAnd + cs[k] + ")"
    else NestedAnd + cs[k]
  }

  lemma GroupLinesAt(cs: seq<string>, first: bool, k: nat)
    requires k < |cs| && (first || |cs| >= 2)
    ensures GroupLines(cs, first)[k] == ClauseLine(cs, k, first)
  {
    var n := |cs| - 1;
    if first {
      var tail := Prefixed(AndLead, cs[1..]);
      assert GroupLines(cs, first) == [WhereLead + cs[0]] + tail;
      if k > 0 {
        assert tail[k - 1] == AndLead + cs[k];
      }
    } else {
      var ts := cs[1..n] + [cs[n] + ")"];
      var tail := Prefixed(NestedAnd, ts);
      assert GroupLines(cs, first) == [OrOpen + cs[0]] + tail;
      if 0 < k < n {
        assert ts[k - 1] == cs[k];
        assert tail[k - 1] == NestedAnd + cs[k];
      } else if k == n {
        assert ts[k - 1] == cs[n] + ")";
        assert tail[k - 1] == NestedAnd + (cs[n] + ")");
      }
    }
  }

  lemma TakeOneMore<T>(s: seq<T>, k: nat)
    requires k < |s|
    ensures s[..k + 1] == s[..k] + [s[k]]
  {
  }

  lemma FormattedGroupsSnoc(groups: seq<seq<Clause>>, idx: nat)
    requires idx < |groups|
    ensures FormattedGroups(groups[..idx + 1]) == FormattedGroups(groups[..idx]) + [Formatted(groups[idx])]
    ensures |FormattedGroups(groups[..idx])| == idx
  {
    assert groups[..idx + 1] == groups[..idx] + [groups[idx]];
  }

  /** The inner loop for group 0: `WHERE` before the first clause, `AND`
      before the others. */
  method RenderFirstGroup(clauses: seq<Clause>) returns (out: seq<string>)
    ensures out == GroupLines(Formatted(clauses), true)
  {
    ghost var texts := Formatted(clauses);
    ghost var lines := GroupLines(texts, true);
    out := [];
    for k := 0 to |clauses|
      invariant out == lines[..k]
    {
      GroupLinesAt(texts, true, k);
      TakeOneMore(lines, k);
      var condition := FormatClause(clauses[k]);
      assert condition == texts[k];
      if k == 0 {
        out := out + [WhereLead + condition];
      } else {
        out := out + [AndLead + condition];
      }
    }
    assert lines[..|clauses|] == lines;
  }

  /** The inner loop for a later group: a lone clause is `OR c`; several are
      bracketed as `OR (c0`, `AND ci`, ..., `AND cn)`. */
  method RenderOrGroup(clauses: seq<Clause>) returns (out: seq<string>)
    ensures out == GroupLines(Formatted(clauses), false)
  {
    ghost var texts := Formatted(clauses);
    ghost var lines := GroupLines(texts, false);
    if |clauses| == 0 {
      return [];
    }
    if |clauses| == 1 {
      return [OrLead + FormatClause(clauses[0])];
    }
    out := [];
    for k := 0 to |clauses|
      invariant out == lines[..k]
    {
      GroupLinesAt(texts, false, k);
      TakeOneMore(lines, k);
      var condition := FormatClause(clauses[k]);
      assert condition == texts[k];
      if k == 0 {
        out := out + [OrOpen + condition];
      } else if k == |clauses| - 1 {
        out := out + [NestedAnd + condition + ")"];
      } else {
        out := out + [NestedAnd + condition];
      }
    }
    assert lines[..|clauses|] == lines;
  }

  /** `for group_idx, clauses in enumerate(clause_groups)`: an empty group
      writes nothing, but only group 0 is written with `WHERE`. */
  method RenderClauseGroups(groups: seq<seq<Clause>>) returns (out: seq<string>)
    ensures out == LayoutLines(FormattedGroups(groups))
  {
    out := [];
    for idx := 0 to |groups|
      invariant out == LayoutLines(FormattedGroups(groups[..idx]))
    {
      var clauses := groups[idx];
      ghost var texts := Formatted(clauses);
      ghost var done := FormattedGroups(groups[..idx]);
      FormattedGroupsSnoc(groups, idx);
      LayoutSnoc(done, texts);
      assert (idx == 0) == (done == []);
      if |clauses| == 0 {
        continue;
      }
      var lines;
      if idx == 0 {
        lines := RenderFirstGroup(clauses);
      } else {
        lines := RenderOrGroup(clauses);
      }
      out := out + lines;
    }
    assert groups[..|groups|] == groups;
  }

  // ---------------------------------------------------------------------
  // Reading the layout back
  // ---------------------------------------------------------------------

  /** Number of leading lines that start with `p` */
  function LeadRun(lines: seq<string>, p: string): (n: nat)
    ensures n <= |lines|
  {
    if lines != [] && StartsWith(lines[0], p) then 1 + LeadRun(lines[1..], p) else 0
  }

  /** Each line with its first |p| characters removed */
  function Unprefixed(lines: seq<string>, p: string): seq<string> {
    seq(|lines|, i requires 0 <= i < |lines| => if |p| <= |lines[i]| then lines[i][|p|..] else lines[i])
  }

  function DropLast(s: string): string {
    if s == [] then [] else s[..|s| - 1]
  }

  /** Reads layout lines back into the rendered clauses of each group. */
  function ParseLayout(lines: seq<string>): seq<seq<string>>
    decreases |lines|
  {
    if lines == [] then []
    else if StartsWith(lines[0], WhereLead) then
      var n := LeadRun(lines[1..], AndLead);
      [[lines[0][|WhereLead|..]] + Unprefixed(lines[1..1 + n], AndLead)] + ParseLayout(lines[1 + n..])
    else if StartsWith(lines[0], OrOpen) && |lines| > 1 && StartsWith(lines[1], NestedAnd) then
      var n := LeadRun(lines[1..], NestedAnd);
      var ands := Unprefixed(lines[1..1 + n], NestedAnd);
      if EndsWith(ands[n - 1], ")") then
        [[lines[0][|OrOpen|..]] + ands[..n - 1] + [DropLast(ands[n - 1])]] + ParseLayout(lines[1 + n..])
      else []
    else if StartsWith(lines[0], OrLead) then
      [[lines[0][|OrLead|..]]] + ParseLayout(lines[1..])
    else []
  }

  /** The non-empty groups */
  function NonEmpty(gs: seq<seq<string>>): seq<seq<string>> {
    if gs == [] then []
    else (if gs[0] == [] then [] else [gs[0]]) + NonEmpty(gs[1..])
  }

  lemma {:induction false} LeadRunPrefixed(p: string, ts: seq<string>, rest: seq<string>)
    requires rest == [] || !StartsWith(rest[0], p)
    ensures LeadRun(Prefixed(p, ts) + rest, p) == |ts|
    decreases |ts|
  {
    var lines := Prefixed(p, ts) + rest;
    if ts == [] {
      assert lines == rest;
    } else {
      StartsWithAppend(p, ts[0]);
      assert lines[0] == p + ts[0];
      assert lines[1..] == Prefixed(p, ts[1..]) + rest;
      LeadRunPrefixed(p, ts[1..], rest);
    }
  }

  lemma UnprefixedPrefixed(p: string, ts: seq<string>)
    ensures Unprefixed(Prefixed(p, ts), p) == ts
  {
    forall i | 0 <= i < |ts|
      ensures Unprefixed(Prefixed(p, ts), p)[i] == ts[i]
    {
      assert (p + ts[i])[|p|..] == ts[i];
    }
  }

  /** A line written for a later group starts with `        OR `. */
  lemma {:induction false} OrGroupsHead(gs: seq<seq<string>>)
    ensures OrGroups(gs) == [] || StartsWith(OrGroups(gs)[0], OrLead)
    decreases |gs|
  {
    if gs != [] {
      if gs[0] == [] {
        assert OrGroups(gs) == OrGroups(gs[1..]);
        OrGroupsHead(gs[1..]);
      } else {
        var c0 := gs[0][0];
        if |gs[0]| == 1 {
          StartsWithAppend(OrLead, c0);
        } else {
          assert OrOpen + c0 == OrLead + ("(" + c0);
          StartsWithAppend(OrLead, "(" + c0);
        }
      }
    }
  }

  /** What starts with `        OR ` starts with none of the other leads. */
  lemma OrLeadExcludes(l: string)
    requires StartsWith(l, OrLead)
    ensures !StartsWith(l, AndLead) && !StartsWith(l, NestedAnd) && !StartsWith(l, WhereLead)
  {
    assert l[8] == OrLead[8] == 'O';
    DiffersAt(l, AndLead, 8);
    DiffersAt(l, NestedAnd, 8);
    DiffersAt(l, WhereLead, 8);
  }

  /** The `AND` lines after a group's first line are read back, and the
      reader stops where they end. */
  lemma PrefixedRun(lines: seq<string>, p: string, ts: seq<string>, rest: seq<string>)
    requires lines != [] && lines[1..] == Prefixed(p, ts) + rest
    requires p == AndLead || p == NestedAnd
    requires rest == [] || StartsWith(rest[0], OrLead)
    ensures LeadRun(lines[1..], p) == |ts|
    ensures Unprefixed(lines[1..1 + |ts|], p) == ts
    ensures lines[1 + |ts|..] == rest
  {
    if rest != [] {
      OrLeadExcludes(rest[0]);
    }
    LeadRunPrefixed(p, ts, rest);
    assert lines[1..1 + |ts|] == Prefixed(p, ts);
    UnprefixedPrefixed(p, ts);
  }

  /** One step of the parser on a `WHERE` group of `n` `AND` lines */
  lemma ParseWhereStep(lines: seq<string>, n: nat)
    requires lines != [] && StartsWith(lines[0], WhereLead) && LeadRun(lines[1..], AndLead) == n
    ensures ParseLayout(lines) == [[lines[0][|WhereLead|..]] + Unprefixed(lines[1..1 + n], AndLead)] + ParseLayout(lines[1 + n..])
  {
  }

  lemma ParseWhereAt(lines: seq<string>, c0: string, ts: seq<string>, rest: seq<string>)
    requires lines != [] && StartsWith(lines[0], WhereLead) && lines[0][|WhereLead|..] == c0
    requires lines[1..] == Prefixed(AndLead, ts) + rest
    requires rest == [] || StartsWith(rest[0], OrLead)
    ensures ParseLayout(lines) == [[c0] + ts] + ParseLayout(rest)
  {
    PrefixedRun(lines, AndLead, ts, rest);
    ParseWhereStep(lines, |ts|);
  }

  /** A layout whose first group is not empty opens with its `WHERE` line,
      followed by the `AND` lines of that group and then the OR-ed groups. */
  lemma WhereHead(gs: seq<seq<string>>)
    requires gs != [] && gs[0] != []
    ensures var lines := LayoutLines(gs);
            && lines != [] && StartsWith(lines[0], WhereLead) && lines[0][|WhereLead|..] == gs[0][0]
            && lines[1..] == Prefixed(AndLead, gs[0][1..]) + OrGroups(gs[1..])
  {
    var cs := gs[0];
    assert LayoutLines(gs) == [WhereLead + cs[0]] + Prefixed(AndLead, cs[1..]) + OrGroups(gs[1..]);
    FirstAndTail(WhereLead + cs[0], Prefixed(AndLead, cs[1..]), OrGroups(gs[1..]));
    StartsWithAppend(WhereLead, cs[0]);
  }

  lemma ParseOrSingle(c0: string, rest: seq<string>)
    requires rest == [] || StartsWith(rest[0], OrLead)
    ensures ParseLayout([OrLead + c0] + rest) == [[c0]] + ParseLayout(rest)
  {
    var lines := [OrLead + c0] + rest;
    StartsWithAppend(OrLead, c0);
    assert lines[0] == OrLead + c0;
    OrLeadExcludes(lines[0]);
    if rest != [] {
      OrLeadExcludes(rest[0]);
      assert lines[1] == rest[0];
    }
    assert lines[1..] == rest;
    assert lines[0][|OrLead|..] == c0;
  }

  /** One step of the parser on a bracketed group of `n` nested lines */
  lemma ParseBracketStep(lines: seq<string>, n: nat)
    requires |lines| > 1 && !StartsWith(lines[0], WhereLead) && StartsWith(lines[0], OrOpen)
    requires StartsWith(lines[1], NestedAnd) && LeadRun(lines[1..], NestedAnd) == n
    requires 1 <= n && EndsWith(Unprefixed(lines[1..1 + n], NestedAnd)[n - 1], ")")
    ensures var ands := Unprefixed(lines[1..1 + n], NestedAnd);
            ParseLayout(lines) == [[lines[0][|OrOpen|..]] + ands[..n - 1] + [DropLast(ands[n - 1])]] + ParseLayout(lines[1 + n..])
  {
  }

  /** The first line of a bracketed group opens it, and the lines after
      it are the nested `AND` lines. */
  lemma BracketHead(cs: seq<string>, rest: seq<string>)
    requires |cs| >= 2
    ensures var n := |cs| - 1;
            var lines := GroupLines(cs, false) + rest;
            && |lines| > 1 && !StartsWith(lines[0], WhereLead)
            && StartsWith(lines[0], OrOpen) && lines[0][|OrOpen|..] == cs[0]
            && lines[1..] == Prefixed(NestedAnd, cs[1..n] + [cs[n] + ")"]) + rest
  {
    var n := |cs| - 1;
    var ts := cs[1..n] + [cs[n] + ")"];
    var lines := GroupLines(cs, false) + rest;
    assert lines == [OrOpen + cs[0]] + Prefixed(NestedAnd, ts) + rest;
    FirstAndTail(OrOpen + cs[0], Prefixed(NestedAnd, ts), rest);
    assert lines[0][8] == OrOpen[8] == 'O';
    DiffersAt(lines[0], WhereLead, 8);
    StartsWithAppend(OrOpen, cs[0]);
  }

  /** The parser on a bracketed group whose nested lines are `ts` */
  lemma ParseBracketAt(lines: seq<string>, c0: string, ts: seq<string>, rest: seq<string>)
    requires ts != []
    requires |lines| > 1 && !StartsWith(lines[0], WhereLead)
    requires StartsWith(lines[0], OrOpen) && lines[0][|OrOpen|..] == c0
    requires lines[1..] == Prefixed(NestedAnd, ts) + rest && EndsWith(ts[|ts| - 1], ")")
    requires rest == [] || StartsWith(rest[0], OrLead)
    ensures ParseLayout(lines) == [[c0] + ts[..|ts| - 1] + [DropLast(ts[|ts| - 1])]] + ParseLayout(rest)
  {
    assert lines[1] == NestedAnd + ts[0];
    StartsWithAppend(NestedAnd, ts[0]);
    PrefixedRun(lines, NestedAnd, ts, rest);
    ParseBracketStep(lines, |ts|);
  }

  /** Dropping the closing bracket from the last nested line gives the
      group's clauses back. */
  lemma BracketClauses(cs: seq<string>)
    requires |cs| >= 2
    ensures var n := |cs| - 1;
            var ts := cs[1..n] + [cs[n] + ")"];
            [cs[0]] + ts[..n - 1] + [DropLast(ts[n - 1])] == cs
  {
    var n := |cs| - 1;
    var ts := cs[1..n] + [cs[n] + ")"];
    assert ts[..n - 1] == cs[1..n];
    var last := cs[n] + ")";
    assert last[..|last| - 1] == cs[n];
    assert cs == [cs[0]] + cs[1..n] + [cs[n]];
  }

  lemma ParseOrBracketed(cs: seq<string>, rest: seq<string>)
    requires |cs| >= 2
    requires rest == [] || StartsWith(rest[0], OrLead)
    ensures ParseLayout(GroupLines(cs, false) + rest) == [cs] + ParseLayout(rest)
  {
    var n := |cs| - 1;
    BracketHead(cs, rest);
    EndsWithAppend(cs[n], ")");
    assert (cs[1..n] + [cs[n] + ")"])[n - 1] == cs[n] + ")";
    ParseBracketAt(GroupLines(cs, false) + rest, cs[0], cs[1..n] + [cs[n] + ")"], rest);
    BracketClauses(cs);
  }

  lemma {:induction false} ParseOrGroups(gs: seq<seq<string>>)
    ensures ParseLayout(OrGroups(gs)) == NonEmpty(gs)
    decreases |gs|
  {
    if gs != [] {
      var cs := gs[0];
      var rest := OrGroups(gs[1..]);
      assert OrGroups(gs) == GroupLines(cs, false) + rest;
      assert NonEmpty(gs) == (if cs == [] then [] else [cs]) + NonEmpty(gs[1..]);
      ParseOrGroups(gs[1..]);
      OrGroupsHead(gs[1..]);
      if cs == [] {
        assert OrGroups(gs) == rest;
      } else if |cs| == 1 {
        assert OrGroups(gs) == [OrLead + cs[0]] + rest;
        ParseOrSingle(cs[0], rest);
        assert [cs[0]] == cs;
      } else {
        ParseOrBracketed(cs, rest);
      }
    }
  }

  /** Reading a layout whose first group is not empty starts with that group. */
  lemma ParseFirstGroup(gs: seq<seq<string>>)
    requires gs != [] && gs[0] != []
    ensures ParseLayout(LayoutLines(gs)) == [gs[0]] + ParseLayout(OrGroups(gs[1..]))
  {
    var cs := gs[0];
    WhereHead(gs);
    OrGroupsHead(gs[1..]);
    ParseWhereAt(LayoutLines(gs), cs[0], cs[1..], OrGroups(gs[1..]));
    assert [cs[0]] + cs[1..] == cs;
  }

  /** The layout is read back unambiguously: the non-empty groups, each with
      its clauses in order. */
  lemma LayoutRoundTrip(gs: seq<seq<string>>)
    ensures ParseLayout(LayoutLines(gs)) == NonEmpty(gs)
  {
    if gs != [] {
      ParseOrGroups(gs[1..]);
      if gs[0] == [] {
        assert LayoutLines(gs) == OrGroups(gs[1..]);
        assert NonEmpty(gs) == [] + NonEmpty(gs[1..]);
      } else {
        ParseFirstGroup(gs);
        assert NonEmpty(gs) == [gs[0]] + NonEmpty(gs[1..]);
      }
    }
  }

  // ---------------------------------------------------------------------
  // Shape of the layout lines
  // ---------------------------------------------------------------------

  /** A layout line: eight spaces of indentation, then `W`(HERE), `A`(ND),
      `O`(R) or the four further spaces of a nested AND. */
  predicate LayoutLine(l: string) {
    |l| > 8 && l[0] == ' ' && (l[8] == 'W' || l[8] == 'A' || l[8] == 'O' || l[8] == ' ')
  }

  lemma {:induction false} GroupLinesShape(cs: seq<string>, first: bool)
    ensures forall l :: l in GroupLines(cs, first) ==> LayoutLine(l) && (l[8] == 'W' <==> first && l == GroupLines(cs, first)[0])
  {
    var lines := GroupLines(cs, first);
    forall k | 0 <= k < |cs|
      ensures LayoutLine(lines[k]) && (lines[k][8] == 'W' <==> first && k == 0)
    {
      if first || |cs| >= 2 {
        GroupLinesAt(cs, first, k);
      } else {
        assert lines[k] == OrLead + cs[0];
      }
    }
    forall l | l in lines
      ensures LayoutLine(l) && (l[8] == 'W' <==> first && l == lines[0])
    {
      var k :| 0 <= k < |lines| && lines[k] == l;
      if first && l == lines[0] && k != 0 {
        assert lines[0][8] == 'W';
      }
    }
  }

  /** Lines written for groups after the first are never WHERE lines. */
  lemma {:induction false} OrGroupsShape(gs: seq<seq<string>>)
    ensures forall l :: l in OrGroups(gs) ==> LayoutLine(l) && l[8] != 'W'
    decreases |gs|
  {
    if gs != [] {
      GroupLinesShape(gs[0], false);
      OrGroupsShape(gs[1..]);
    }
  }

  /** A line opened by one of the four leads the layout writes */
  predicate KeywordLine(l: string) {
    StartsWith(l, WhereLead) || StartsWith(l, AndLead) || StartsWith(l, OrLead) || StartsWith(l, NestedAnd)
  }

  lemma ClauseLineLead(cs: seq<string>, k: nat, first: bool)
    requires k < |cs|
    ensures KeywordLine(ClauseLine(cs, k, first))
  {
    if first && k == 0 {
      StartsWithAppend(WhereLead, cs[k]);
    } else if first {
      StartsWithAppend(AndLead, cs[k]);
    } else if k == 0 {
      assert OrOpen + cs[k] == OrLead + ("(" + cs[k]);
      StartsWithAppend(OrLead, "(" + cs[k]);
    } else if k == |cs| - 1 {
      assert NestedAnd + cs[k] + ")" == NestedAnd + (cs[k] + ")");
      StartsWithAppend(NestedAnd, cs[k] + ")");
    } else {
      StartsWithAppend(NestedAnd, cs[k]);
    }
  }

  lemma GroupLinesLead(cs: seq<string>, first: bool)
    ensures forall l :: l in GroupLines(cs, first) ==> KeywordLine(l)
  {
    var lines := GroupLines(cs, first);
    forall k | 0 <= k < |cs|
      ensures KeywordLine(lines[k])
    {
      if first || |cs| >= 2 {
        GroupLinesAt(cs, first, k);
        ClauseLineLead(cs, k, first);
      } else {
        assert lines[k] == OrLead + cs[0];
        StartsWithAppend(OrLead, cs[0]);
      }
    }
  }

  lemma {:induction false} OrGroupsLead(gs: seq<seq<string>>)
    ensures forall l :: l in OrGroups(gs) ==> KeywordLine(l)
    decreases |gs|
  {
    if gs != [] {
      GroupLinesLead(gs[0], false);
      OrGroupsLead(gs[1..]);
    }
  }

  /** Every layout line opens with the eight-space indent followed by
      `WHERE`, `AND`, `OR`, or the deeper nested `AND`. */
  lemma LayoutShape(gs: seq<seq<string>>)
    ensures forall l :: l in LayoutLines(gs) ==> LayoutLine(l)
    ensures forall l :: l in LayoutLines(gs) ==> KeywordLine(l)
  {
    if gs != [] {
      GroupLinesShape(gs[0], true);
      OrGroupsShape(gs[1..]);
      GroupLinesLead(gs[0], true);
      OrGroupsLead(gs[1..]);
    }
  }

  lemma NoWhereLines(lines: seq<string>)
    requires forall l :: l in lines ==> LayoutLine(l) && l[8] != 'W'
    ensures Select(lines, WhereLead) == []
  {
    forall l | l in lines
      ensures !StartsWith(l, WhereLead)
    {
      DiffersAt(l, WhereLead, 8);
    }
    SelectNone(lines, WhereLead);
  }

  lemma WhereInFirstGroup(cs: seq<string>)
    ensures Select(GroupLines(cs, true), WhereLead) == if cs != [] then [WhereLead + cs[0]] else []
  {
    var head := GroupLines(cs, true);
    if cs != [] {
      GroupLinesShape(cs, true);
      assert head[0] == WhereLead + cs[0];
      assert head == [head[0]] + head[1..];
      SelectAppend([head[0]], head[1..], WhereLead);
      NoWhereLines(head[1..]);
      StartsWithAppend(WhereLead, cs[0]);
      assert Select([head[0]], WhereLead) == Select([], WhereLead) + [head[0]];
    }
  }

  /** `WHERE` opens the first clause group and appears nowhere else; when
      the first group is empty no line carries `WHERE` at all. */
  lemma WhereOnlyFirst(gs: seq<seq<string>>)
    ensures Select(LayoutLines(gs), WhereLead) == if gs != [] && gs[0] != [] then [WhereLead + gs[0][0]] else []
  {
    if gs != [] {
      var head := GroupLines(gs[0], true);
      var rest := OrGroups(gs[1..]);
      assert LayoutLines(gs) == head + rest;
      SelectAppend(head, rest, WhereLead);
      assert Select(rest, WhereLead) == [] by {
        OrGroupsShape(gs[1..]);
        NoWhereLines(rest);
      }
      WhereInFirstGroup(gs[0]);
    }
  }
}
