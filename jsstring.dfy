/** The JavaScript string operations the components use: `split` on a
    one-character separator, indexing into its result, and `startsWith`. */
module JsString {
  import opened Web

  /** Position of the first occurrence of `c` in `s`. */
  function IndexOf(s: string, c: char): (i: nat)
    requires c in s
    ensures i < |s| && s[i] == c
    ensures c !in s[..i]
  {
    if s[0] == c then 0
    else
      var j := IndexOf(s[1..], c);
      assert s[..j + 1] == [s[0]] + s[1..][..j];
      j + 1
  }

  /** `s.split(sep)`: the pieces between the separators, never empty. */
  function Split(s: string, sep: char): (parts: seq<string>)
    ensures |parts| >= 1
    ensures |parts| == 1 <==> sep !in s
    ensures forall k :: 0 <= k < |parts| ==> sep !in parts[k]
    decreases |s|
  {
    if sep !in s then [s]
    else
      var i := IndexOf(s, sep);
      [s[..i]] + Split(s[i + 1..], sep)
  }

  /** `parts.join(sep)`, the inverse of `Split`. */
  function Join(parts: seq<string>, sep: char): string
    requires |parts| >= 1
  {
    if |parts| == 1 then parts[0] else parts[0] + [sep] + Join(parts[1..], sep)
  }

  /** `s.split(sep)[k]`; `None` is JavaScript's `undefined` past the end. */
  function Field(s: string, sep: char, k: nat): (r: Option<string>)
    ensures r.Some? <==> k < |Split(s, sep)|
    ensures r.Some? ==> sep !in r.value
  {
    if k < |Split(s, sep)| then Some(Split(s, sep)[k]) else None
  }

  /** `s.startsWith(prefix)`. */
  predicate StartsWith(s: string, prefix: string) {
    |prefix| <= |s| && s[..|prefix|] == prefix
  }

  /** Joining the pieces of a split restores the string. */
  lemma {:induction false} JoinSplit(s: string, sep: char)
    ensures Join(Split(s, sep), sep) == s
    decreases |s|
  {
    if sep in s {
      var i := IndexOf(s, sep);
      var pre, rest := s[..i], s[i + 1..];
      assert s == pre + [sep] + rest;
      SplitAfterPrefix(pre, sep, rest);
      JoinSplit(rest, sep);
      JoinCons(pre, Split(rest, sep), sep);
    }
  }

  /** Splitting a join of separator-free pieces gives the pieces back, so
      `Split` is the only decomposition of `s` into separator-free pieces. */
  lemma {:induction false} SplitJoin(parts: seq<string>, sep: char)
    requires |parts| >= 1
    requires forall k :: 0 <= k < |parts| ==> sep !in parts[k]
    ensures Split(Join(parts, sep), sep) == parts
  {
    if |parts| > 1 {
      var rest := parts[1..];
      JoinCons(parts[0], rest, sep);
      assert parts == [parts[0]] + rest;
      SplitAfterPrefix(parts[0], sep, Join(rest, sep));
      SplitJoin(rest, sep);
    }
  }

  /** Joining one more piece in front. */
  lemma JoinCons(first: string, parts: seq<string>, sep: char)
    requires |parts| >= 1
    ensures Join([first] + parts, sep) == first + [sep] + Join(parts, sep)
  {
    assert ([first] + parts)[1..] == parts;
  }

  /** The first separator of `pre + [sep] + rest` is the one after `pre`
      when `pre` has none. */
  lemma FirstAfterPrefix(pre: string, sep: char, rest: string)
    requires sep !in pre
    ensures sep in pre + [sep] + rest
    ensures IndexOf(pre + [sep] + rest, sep) == |pre|
  {
    var s := pre + [sep] + rest;
    assert s[|pre|] == sep;
    var i := IndexOf(s, sep);
    assert forall k :: 0 <= k < |pre| ==> s[k] == pre[k];
  }

  /** Splitting past a separator-free first piece. */
  lemma SplitAfterPrefix(pre: string, sep: char, rest: string)
    requires sep !in pre
    ensures Split(pre + [sep] + rest, sep) == [pre] + Split(rest, sep)
  {
    var s := pre + [sep] + rest;
    FirstAfterPrefix(pre, sep, rest);
    assert s[..|pre|] == pre;
    assert s[|pre| + 1..] == rest;
  }

  /** JavaScript's `split(sep)[1]` is the text between the first and the
      second separator (or the end). */
  lemma SecondField(pre: string, sep: char, field: string, post: string)
    requires sep !in pre && sep !in field
    requires post == [] || post[0] == sep
    ensures Field(pre + [sep] + field + post, sep, 1) == Some(field)
  {
    assert pre + [sep] + field + post == pre + [sep] + (field + post);
    SplitAfterPrefix(pre, sep, field + post);
    FirstField(field, sep, post);
  }

  /** JavaScript's `split(sep)[0]` is the text before the first separator. */
  lemma FirstField(pre: string, sep: char, post: string)
    requires sep !in pre
    requires post == [] || post[0] == sep
    ensures Split(pre + post, sep)[0] == pre
  {
    var s := pre + post;
    if post == [] {
      assert s == pre;
    } else {
      assert s == pre + [sep] + post[1..];
      SplitAfterPrefix(pre, sep, post[1..]);
    }
  }
}
