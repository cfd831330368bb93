/** The few pieces of JavaScript semantics that the plugin relies on:
    truthiness of configuration values, `String.prototype.includes` and
    `Array.prototype.join`; plus `SplitLines`, which the plugin never calls and
    which serves only to read generated code line by line. */
module Js {
  import opened Seqs

  /** A configuration value as JavaScript sees it. Numbers are integers here
      (NaN and fractions are not modelled). */
  datatype JsValue =
    | Undefined
    | Null
    | Bool(b: bool)
    | Number(n: int)
    | Str(s: string)
    | Object

  /** JavaScript truthiness: what `if (v)`, `v || d` and `_.some` test. */
  predicate Truthy(v: JsValue) {
    match v
    case Undefined => false
    case Null => false
    case Bool(b) => b
    case Number(n) => n != 0
    case Str(s) => s != ""
    case Object => true
  }

  /** `sub` occurs in `s` starting at index `i`. */
  predicate OccursAt(s: string, sub: string, i: int) {
    0 <= i && i + |sub| <= |s| && s[i..i + |sub|] == sub
  }

  /** `s.includes(sub)`, scanning from the left. */
  predicate Includes(s: string, sub: string)
    decreases |s|
  {
    |sub| <= |s| && (s[..|sub|] == sub || (|s| > 0 && Includes(s[1..], sub)))
  }

  /** The scan agrees with the positional definition of a substring. */
  lemma {:induction false} IncludesIffOccurs(s: string, sub: string)
    ensures Includes(s, sub) <==> exists i :: OccursAt(s, sub, i)
    decreases |s|
  {
    if |sub| <= |s| && s[..|sub|] != sub && |s| > 0 {
      IncludesIffOccurs(s[1..], sub);
      if exists i :: OccursAt(s, sub, i) {
        var i :| OccursAt(s, sub, i);
        assert i != 0;
        assert s[1..][i - 1..i - 1 + |sub|] == s[i..i + |sub|];
        assert OccursAt(s[1..], sub, i - 1);
      }
      if exists i :: OccursAt(s[1..], sub, i) {
        var i :| OccursAt(s[1..], sub, i);
        assert s[1..][i..i + |sub|] == s[i + 1..i + 1 + |sub|];
        assert OccursAt(s, sub, i + 1);
      }
    } else if |sub| <= |s| && s[..|sub|] == sub {
      assert OccursAt(s, sub, 0);
    }
  }

  /** A text includes every piece it was concatenated from. */
  lemma IncludesMiddle(a: string, b: string, c: string)
    ensures Includes(a + b + c, b)
  {
    var s := a + b + c;
    assert s[|a|..|a| + |b|] == b;
    assert OccursAt(s, b, |a|);
    IncludesIffOccurs(s, b);
  }

  /** `items.join(sep)`. */
  function Join(items: seq<string>, sep: string): string {
    if |items| == 0 then ""
    else if |items| == 1 then items[0]
    else items[0] + sep + Join(items[1..], sep)
  }

  /** The pieces between line breaks, in order (as `s.split('\n')` gives them). */
  function SplitLines(s: string): (lines: seq<string>)
    ensures |lines| >= 1
    decreases |s|
  {
    if |s| == 0 then [""]
    else
      var rest := SplitLines(s[1..]);
      if s[0] == '\n' then [""] + rest
      else [[s[0]] + rest[0]] + rest[1..]
  }

  /** Splitting a text that starts with one line and a break yields that line first. */
  lemma {:induction false} SplitAfterLine(a: string, b: string)
    requires '\n' !in a
    ensures SplitLines(a + "\n" + b) == [a] + SplitLines(b)
    decreases |a|
  {
    var s := a + "\n" + b;
    if |a| == 0 {
      assert s[1..] == b;
    } else {
      assert s[1..] == a[1..] + "\n" + b;
      assert '\n' !in a[1..];
      SplitAfterLine(a[1..], b);
      assert [a[0]] + a[1..] == a;
    }
  }

  /** One step of `SplitJoinedLines`: put a first line in front. */
  lemma SplitJoinedCons(head: string, tail: seq<string>)
    requires '\n' !in head && |tail| > 0
    requires SplitLines(Join(tail, "\n") + "\n") == tail + [""]
    ensures SplitLines(Join([head] + tail, "\n") + "\n") == [head] + tail + [""]
  {
    var rest := Join(tail, "\n");
    var joined := Join([head] + tail, "\n");
    assert ([head] + tail)[1..] == tail;
    assert joined == head + "\n" + rest;
    AppendAssociative(head + "\n", rest, "\n");
    SplitAfterLine(head, rest + "\n");
    AppendAssociative([head], tail, [""]);
  }

  /** No line holds a line break. */
  predicate WithoutBreaks(lines: seq<string>) {
    forall k :: 0 <= k < |lines| ==> '\n' !in lines[k]
  }

  /** Joining lines that hold no break with '\n' and ending with one more break
      splits back into the same lines followed by an empty last piece. */
  lemma {:induction false} SplitJoinedLines(lines: seq<string>)
    requires |lines| > 0 && WithoutBreaks(lines)
    ensures SplitLines(Join(lines, "\n") + "\n") == lines + [""]
  {
    if |lines| == 1 {
      assert Join(lines, "\n") + "\n" == lines[0] + "\n" + "";
      SplitAfterLine(lines[0], "");
    } else {
      SplitJoinedLines(lines[1..]);
      SplitJoinedCons(lines[0], lines[1..]);
      assert [lines[0]] + lines[1..] == lines;
    }
  }
}
