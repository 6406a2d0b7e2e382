/** UBKitNotificationNameBuilder.swift: a builder with three optional parts whose `build()`
    joins the parts that are present with `_`, always in the order path, id, method. */
module NameBuilder {
  import opened Optional

  const Separator: char := '_'

  /** `[String].joined(separator:)`. */
  function Join(parts: seq<string>, sep: char): string
    decreases |parts|
  {
    if |parts| == 0 then ""
    else if |parts| == 1 then parts[0]
    else parts[0] + [sep] + Join(parts[1..], sep)
  }

  /** Splitting at every separator: the independent inverse of `Join`. */
  function Split(s: string, sep: char): (r: seq<string>)
    ensures |r| > 0
    decreases |s|
  {
    if |s| == 0 then [""]
    else if s[0] == sep then [""] + Split(s[1..], sep)
    else
      var rest := Split(s[1..], sep);
      [[s[0]] + rest[0]] + rest[1..]
  }

  /** The builder's state: each part is `nil` until its setter is called. */
  datatype Builder = Builder(path: Option<string>, id: Option<string>, methodName: Option<string>)

  /** `init()`. */
  function New(): (b: Builder)
    ensures b.path.None? && b.id.None? && b.methodName.None?
  {
    Builder(None, None, None)
  }

  /** `setPath(_:)`: overwrites the path only; the chained result is the same builder. */
  function SetPath(b: Builder, path: string): (r: Builder)
    ensures r.path == Some(path) && r.id == b.id && r.methodName == b.methodName
  {
    b.(path := Some(path))
  }

  /** `setId(_:)`. */
  function SetId(b: Builder, id: string): (r: Builder)
    ensures r.id == Some(id) && r.path == b.path && r.methodName == b.methodName
  {
    b.(id := Some(id))
  }

  /** `setMethod(_:)`. */
  function SetMethod(b: Builder, methodName: string): (r: Builder)
    ensures r.methodName == Some(methodName) && r.path == b.path && r.id == b.id
  {
    b.(methodName := Some(methodName))
  }

  /** The parts that are present, in the fixed order path, id, method. */
  function Parts(b: Builder): (r: seq<string>)
    ensures |r| <= 3
  {
    (if b.path.Some? then [b.path.value] else [])
    + (if b.id.Some? then [b.id.value] else [])
    + (if b.methodName.Some? then [b.methodName.value] else [])
  }

  /** `build()`. It reads the builder and changes nothing, so building twice gives the same name. */
  function Build(b: Builder): (name: string)
    ensures b == New() ==> name == ""
    ensures b.path.Some? && b.id.Some? && b.methodName.Some? ==>
              name == b.path.value + "_" + b.id.value + "_" + b.methodName.value
  {
    var parts := Parts(b);
    assert |parts| == 3 ==> Join(parts, Separator) == parts[0] + "_" + parts[1] + "_" + parts[2] by {
      if |parts| == 3 {
        assert parts[1..][1..] == [parts[2]];
        assert Join(parts[1..], Separator) == parts[1] + "_" + parts[2];
        assert Join(parts, Separator) == parts[0] + "_" + (parts[1] + "_" + parts[2]);
      }
    }
    Join(parts, Separator)
  }

  // ---------------------------------------------------------------- lemmas

  lemma {:induction false} SplitNoSeparator(a: string, sep: char)
    requires sep !in a
    ensures Split(a, sep) == [a]
    decreases |a|
  {
    if |a| > 0 {
      assert sep !in a[1..];
      SplitNoSeparator(a[1..], sep);
      assert [a[0]] + a[1..] == a;
    }
  }

  lemma {:induction false} SplitAtFirst(a: string, sep: char, b: string)
    requires sep !in a
    ensures Split(a + [sep] + b, sep) == [a] + Split(b, sep)
    decreases |a|
  {
    if |a| == 0 {
      assert a + [sep] + b == [sep] + b;
      assert ([sep] + b)[1..] == b;
    } else {
      var s := a + [sep] + b;
      assert s[0] == a[0] && s[1..] == a[1..] + [sep] + b;
      assert sep !in a[1..];
      SplitAtFirst(a[1..], sep, b);
      assert [a[0]] + a[1..] == a;
    }
  }

  /** Splitting a joined name at the separator recovers the parts, provided there is at least
      one part and no part contains the separator: no leading, trailing or doubled separator. */
  lemma {:induction false} SplitJoin(parts: seq<string>, sep: char)
    requires |parts| > 0
    requires forall i :: 0 <= i < |parts| ==> sep !in parts[i]
    ensures Split(Join(parts, sep), sep) == parts
    decreases |parts|
  {
    if |parts| == 1 {
      SplitNoSeparator(parts[0], sep);
    } else {
      SplitAtFirst(parts[0], sep, Join(parts[1..], sep));
      SplitJoin(parts[1..], sep);
      assert [parts[0]] + parts[1..] == parts;
    }
  }

  /** When the parts themselves contain no `_`, the built name splits back into exactly the parts
      that were set, in path, id, method order. */
  lemma BuildSplitsIntoParts(b: Builder)
    requires b != New()
    requires forall i :: 0 <= i < |Parts(b)| ==> Separator !in Parts(b)[i]
    ensures Split(Build(b), Separator) == Parts(b)
  {
    assert |Parts(b)| > 0;
    SplitJoin(Parts(b), Separator);
  }

  /** The order of the setter calls does not matter, and the last write to a part wins. */
  lemma SettersCommuteAndOverwrite(b: Builder, p: string, p2: string, i: string, m: string)
    ensures SetPath(SetId(b, i), p) == SetId(SetPath(b, p), i)
    ensures SetPath(SetMethod(b, m), p) == SetMethod(SetPath(b, p), m)
    ensures SetId(SetMethod(b, m), i) == SetMethod(SetId(b, i), m)
    ensures SetPath(SetPath(b, p), p2) == SetPath(b, p2)
    ensures Build(SetMethod(SetId(SetPath(New(), p), i), m)) == Build(SetPath(SetId(SetMethod(New(), m), i), p))
  {
  }

  /** The text after the last `_` of `prefix + "_" + last` is `last` whenever `last` has no `_`:
      whatever the path and id contain, the method is the last component of a composite name. */
  lemma {:induction false} LastComponent(prefix: string, last: string)
    requires Separator !in last
    ensures var parts := Split(prefix + [Separator] + last, Separator); |parts| >= 2 && parts[|parts| - 1] == last
    decreases |prefix|
  {
    if |prefix| == 0 {
      SplitAtFirst(prefix, Separator, last);
      SplitNoSeparator(last, Separator);
    } else {
      var s := prefix + [Separator] + last;
      assert s[1..] == prefix[1..] + [Separator] + last;
      LastComponent(prefix[1..], last);
    }
  }
}
