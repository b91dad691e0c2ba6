/** The two pure helpers of the renderer: `camel_to_readable` and
    `format_condition_clause`. */
module Formatting {
  import opened Dicts
  import opened Strings
  import opened Schema

  // ---------------------------------------------------------------------
  // camel_to_readable: `re.sub(r'(?<!^)(?=[A-Z])', ' ', text)` puts one
  // space in front of every A-Z letter that is not the first character.
  // ---------------------------------------------------------------------

  /** Number of A-Z letters in `t` */
  function CountUpper(t: string): nat {
    if t == [] then 0 else (if IsAsciiUpper(t[0]) then 1 else 0) + CountUpper(t[1..])
  }

  /** `t` with a space in front of each of its A-Z letters */
  function SpaceBeforeUpper(t: string): (r: string)
    ensures |r| == |t| + CountUpper(t)
    ensures r != [] ==> !IsAsciiUpper(r[0])
  {
    if t == [] then []
    else (if IsAsciiUpper(t[0]) then [' ', t[0]] else [t[0]]) + SpaceBeforeUpper(t[1..])
  }

  function CamelToReadable(text: string): (r: string)
    ensures |r| == |text| + (if text == [] then 0 else CountUpper(text[1..]))
    ensures text != [] ==> r[0] == text[0]
  {
    if text == [] then [] else [text[0]] + SpaceBeforeUpper(text[1..])
  }

  /** Removes every space that stands directly in front of an A-Z letter */
  function DropSpacesBeforeUpper(r: string): string {
    if |r| >= 2 && r[0] == ' ' && IsAsciiUpper(r[1]) then [r[1]] + DropSpacesBeforeUpper(r[2..])
    else if r == [] then []
    else [r[0]] + DropSpacesBeforeUpper(r[1..])
  }

  /** Inverse of CamelToReadable: keeps the first character and removes the
      inserted spaces from the rest. */
  function ReadableToCamel(r: string): string {
    if r == [] then [] else [r[0]] + DropSpacesBeforeUpper(r[1..])
  }

  lemma {:induction false} DropSpacesRoundTrip(t: string)
    ensures DropSpacesBeforeUpper(SpaceBeforeUpper(t)) == t
  {
    if t != [] {
      var rest := SpaceBeforeUpper(t[1..]);
      DropSpacesRoundTrip(t[1..]);
      if IsAsciiUpper(t[0]) {
        assert SpaceBeforeUpper(t) == [' ', t[0]] + rest;
        assert ([' ', t[0]] + rest)[2..] == rest;
      } else {
        assert SpaceBeforeUpper(t) == [t[0]] + rest;
        assert ([t[0]] + rest)[1..] == rest;
      }
    }
  }

  /** Deleting the inserted spaces gives the input back. */
  lemma ReadableRoundTrip(text: string)
    ensures ReadableToCamel(CamelToReadable(text)) == text
  {
    if text != [] {
      DropSpacesRoundTrip(text[1..]);
      assert CamelToReadable(text)[1..] == SpaceBeforeUpper(text[1..]);
    }
  }

  lemma {:induction false} SpaceBeforeUpperAt(t: string, j: nat)
    requires j < |t|
    ensures var k := j + CountUpper(t[..j + 1]);
            var r := SpaceBeforeUpper(t);
            && k < |r| && r[k] == t[j]
            && (IsAsciiUpper(t[j]) ==> r[k - 1] == ' ')
            && (!IsAsciiUpper(t[j]) && j >= 1 ==> r[k - 1] == t[j - 1])
  {
    var head := if IsAsciiUpper(t[0]) then [' ', t[0]] else [t[0]];
    var rest := SpaceBeforeUpper(t[1..]);
    assert SpaceBeforeUpper(t) == head + rest;
    if j > 0 {
      SpaceBeforeUpperAt(t[1..], j - 1);
      assert t[..j + 1][1..] == t[1..][..j];
      assert CountUpper(t[..j + 1]) == |head| - 1 + CountUpper(t[1..][..j]);
      if j == 1 && !IsAsciiUpper(t[1]) {
        assert CountUpper(t[1..][..1]) == 0;
      }
    } else {
      assert CountUpper(t[..1]) == |head| - 1;
    }
  }

  /** Each character keeps its order, and the output character before it is
      an inserted space exactly when it is an A-Z letter at position >= 1. */
  lemma SpacesBeforeCapitals(text: string, i: nat)
    requires 1 <= i < |text|
    ensures var k := i + CountUpper(text[1..i + 1]);
            var r := CamelToReadable(text);
            && k < |r| && r[k] == text[i]
            && (IsAsciiUpper(text[i]) ==> r[k - 1] == ' ')
            && (!IsAsciiUpper(text[i]) ==> r[k - 1] == text[i - 1])
  {
    var t := text[1..];
    SpaceBeforeUpperAt(t, i - 1);
    assert t[..i] == text[1..i + 1];
    assert CamelToReadable(text) == [text[0]] + SpaceBeforeUpper(t);
    if i == 1 && !IsAsciiUpper(text[1]) {
      assert CountUpper(text[1..2]) == 0;
    }
  }

  // ---------------------------------------------------------------------
  // format_condition_clause
  // ---------------------------------------------------------------------

  /** `field_prefix + field_name`: "tag " and the first `tag_field` entry when
      the clause has a `tag_field` key, else the first `field` entry. */
  function FieldText(c: Clause): string {
    if c.tagField.Some? then "tag " + FirstOr(c.tagField) else FirstOr(c.field)
  }

  /** `clause.get('op', '=')` */
  function OpOf(c: Clause): string {
    c.op.GetOr("=")
  }

  /** `clause.get('val', '')` */
  function ValOf(c: Clause): string {
    c.val.GetOr("")
  }

  function Quoted(v: string): string {
    "'" + v + "'"
  }

  /** `f"{field} {keyword} '{val}'"` */
  function WithValue(field: string, keyword: string, val: string): (r: string)
    ensures StartsWith(r, field + " ")
    ensures EndsWith(r, " " + Quoted(val))
  {
    var r := field + " " + keyword + " " + Quoted(val);
    assert r == (field + " ") + (keyword + " " + Quoted(val));
    StartsWithAppend(field + " ", keyword + " " + Quoted(val));
    assert r == (field + " " + keyword) + (" " + Quoted(val));
    EndsWithAppend(field + " " + keyword, " " + Quoted(val));
    r
  }

  /** `f"{field} {keyword}"` */
  function WithoutValue(field: string, keyword: string): (r: string)
    ensures StartsWith(r, field + " ")
  {
    StartsWithAppend(field + " ", keyword);
    field + " " + keyword
  }

  predicate IsNullOperator(op: string) {
    LowerAscii(op) == "is null" || LowerAscii(op) == "is not null"
  }

  /** The operators that get their own rendering; the others fall back. */
  predicate Recognised(op: string) {
    || op == "=" || op == "!=" || op == "Contains"
    || LowerAscii(op) == "does not contain"
    || IsNullOperator(op)
  }

  function FormatClause(c: Clause): (r: string)
    ensures StartsWith(r, FieldText(c) + " ")
    ensures !IsNullOperator(OpOf(c)) ==> EndsWith(r, " " + Quoted(ValOf(c)))
    ensures c.op.None? || OpOf(c) == "=" ==> r == WithValue(FieldText(c), "=", ValOf(c))
    ensures OpOf(c) == "!=" ==> r == WithValue(FieldText(c), "!=", ValOf(c))
    ensures OpOf(c) == "Contains" ==> r == WithValue(FieldText(c), "CONTAINS", ValOf(c))
    ensures LowerAscii(OpOf(c)) == "does not contain" ==>
              r == WithValue(FieldText(c), "DOES NOT CONTAIN", ValOf(c))
    ensures LowerAscii(OpOf(c)) == "is null" ==> r == WithoutValue(FieldText(c), "IS NULL")
    ensures LowerAscii(OpOf(c)) == "is not null" ==> r == WithoutValue(FieldText(c), "IS NOT NULL")
    ensures !Recognised(OpOf(c)) ==> r == WithValue(FieldText(c), OpOf(c), ValOf(c))
  {
    var op, val, field := OpOf(c), ValOf(c), FieldText(c);
    if op == "=" then WithValue(field, "=", val)
    else if op == "!=" then WithValue(field, "!=", val)
    else if op == "Contains" then WithValue(field, "CONTAINS", val)
    else if LowerAscii(op) == "does not contain" then WithValue(field, "DOES NOT CONTAIN", val)
    else if LowerAscii(op) == "is null" then WithoutValue(field, "IS NULL")
    else if LowerAscii(op) == "is not null" then WithoutValue(field, "IS NOT NULL")
    else WithValue(field, op, val)
  }

  /** `=`, `!=` and `Contains` match only in exact case; the other three
      operators match in any case. */
  lemma OperatorCase(c: Clause)
    ensures c.op == Some("contains") || c.op == Some("CONTAINS") ==>
              FormatClause(c) == WithValue(FieldText(c), OpOf(c), ValOf(c))
    ensures c.op == Some("IS NULL") || c.op == Some("Is Null") ==>
              FormatClause(c) == WithoutValue(FieldText(c), "IS NULL")
    ensures c.op == Some("Is Not Null") ==> FormatClause(c) == WithoutValue(FieldText(c), "IS NOT NULL")
    ensures c.op == Some("DOES NOT CONTAIN") ==>
              FormatClause(c) == WithValue(FieldText(c), "DOES NOT CONTAIN", ValOf(c))
  {
    assert LowerAscii("IS NULL") == "is null";
    assert LowerAscii("Is Null") == "is null";
    assert LowerAscii("Is Not Null") == "is not null";
    assert LowerAscii("DOES NOT CONTAIN") == "does not contain";
  }

  /** The field prefix is "tag " exactly when the clause has a `tag_field`
      key, even an empty one; the name is the list's first element or "". */
  lemma ClauseField(c: Clause)
    ensures c.tagField.Some? ==> StartsWith(FormatClause(c), "tag " + FirstOr(c.tagField) + " ")
    ensures c.tagField == Some([]) ==> StartsWith(FormatClause(c), "tag  ")
    ensures c.tagField.None? ==> StartsWith(FormatClause(c), FirstOr(c.field) + " ")
    ensures c.tagField.None? && (c.field.None? || c.field == Some([])) ==> StartsWith(FormatClause(c), " ")
  {
  }
}
