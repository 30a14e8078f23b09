/** Values shared by every part of the model: optional values, the optional
    string fields of JavaScript request bodies, and the handful of string
    operations the source uses (`startsWith`, `endsWith`, `split`). */
module Common {

  datatype Option<+T> = None | Some(value: T)

  /** A JavaScript value that is either a string or absent (`undefined`/`null`). */
  type Field = Option<string>

  /** JavaScript truthiness of such a value: present and not the empty string. */
  predicate Truthy(f: Field) {
    f.Some? && f.value != ""
  }

  /** The JavaScript expression `f || d`. */
  function Or(f: Field, d: string): string {
    if Truthy(f) then f.value else d
  }

  predicate StartsWith(s: string, prefix: string) {
    |prefix| <= |s| && s[..|prefix|] == prefix
  }

  predicate EndsWith(s: string, suffix: string) {
    |suffix| <= |s| && s[|s| - |suffix|..] == suffix
  }

  /** No element occurs twice. */
  predicate Distinct<T(==)>(s: seq<T>) {
    forall i, j :: 0 <= i < j < |s| ==> s[i] != s[j]
  }

  /** `s` with every occurrence of `x` removed, the rest in order. */
  function Without<T(==,!new)>(s: seq<T>, x: T): (r: seq<T>)
    ensures forall y :: y in r <==> y in s && y != x
    ensures Distinct(s) ==> Distinct(r)
    ensures x !in s ==> r == s
  {
    if s == [] then []
    else if s[0] == x then Without(s[1..], x)
    else
      var rest := Without(s[1..], x);
      assert Distinct(s) ==> s[0] !in s[1..];
      [s[0]] + rest
  }

  /** Removing `x` works piecewise: the remaining elements keep their
      relative order. */
  lemma {:induction false} WithoutAppend<T(!new)>(a: seq<T>, b: seq<T>, x: T)
    ensures Without(a + b, x) == Without(a, x) + Without(b, x)
    decreases |a|
  {
    if a != [] {
      assert (a + b)[0] == a[0];
      assert (a + b)[1..] == a[1..] + b;
      WithoutAppend(a[1..], b, x);
      if a[0] == x {
        assert Without(a + b, x) == Without(a[1..] + b, x);
        assert Without(a, x) == Without(a[1..], x);
      } else {
        assert Without(a + b, x) == [a[0]] + Without(a[1..] + b, x);
        assert Without(a, x) == [a[0]] + Without(a[1..], x);
      }
    } else {
      assert a + b == b;
    }
  }

  /** Deleting a key that occurs once, between `before` and `after`, leaves
      exactly `before` followed by `after`. */
  lemma WithoutOne<T(!new)>(before: seq<T>, x: T, after: seq<T>)
    requires x !in before && x !in after
    ensures Without(before + [x] + after, x) == before + after
  {
    WithoutAppend(before + [x], after, x);
    WithoutAppend(before, [x], x);
  }

  lemma AppendAssoc<T>(a: seq<T>, b: seq<T>, c: seq<T>)
    ensures (a + b) + c == a + (b + c)
  {
  }

  /** A prefix one element longer is the shorter prefix and that element. */
  lemma PrefixSnoc<T>(s: seq<T>, i: nat)
    requires i < |s|
    ensures s[..i + 1] == s[..i] + [s[i]]
  {
  }

  /** A sequence without repetitions has as many elements as its set. */
  lemma {:induction false} DistinctCard<T>(s: seq<T>)
    requires Distinct(s)
    ensures |set x | x in s| == |s|
  {
    if s != [] {
      DistinctCard(s[1..]);
      assert (set x | x in s) == (set x | x in s[1..]) + {s[0]};
      assert s[0] !in s[1..];
    }
  }

  /** JavaScript `s.split(sep)` for a one-character separator: the maximal
      separator-free pieces of `s`, in order, empty pieces included. */
  function Split(s: string, sep: char): (r: seq<string>)
    ensures |r| >= 1
    ensures forall i :: 0 <= i < |r| ==> sep !in r[i]
    ensures sep in s ==> |r| >= 2
    decreases |s|
  {
    if s == [] then [""]
    else if s[0] == sep then [""] + Split(s[1..], sep)
    else
      var rest := Split(s[1..], sep);
      assert sep in s[1..] ==> |rest| >= 2;
      [[s[0]] + rest[0]] + rest[1..]
  }

  /** Array `join(sep)`, the inverse of `Split`. */
  function Join(parts: seq<string>, sep: char): string {
    if parts == [] then ""
    else if |parts| == 1 then parts[0]
    else parts[0] + [sep] + Join(parts[1..], sep)
  }

  /** Joining the pieces of a split gives back the original string. */
  lemma {:induction false} JoinSplit(s: string, sep: char)
    ensures Join(Split(s, sep), sep) == s
  {
    if s == [] {
    } else if s[0] == sep {
      JoinSplit(s[1..], sep);
      assert s == [sep] + s[1..];
    } else {
      JoinSplit(s[1..], sep);
      var rest := Split(s[1..], sep);
      if |rest| == 1 {
        assert s == [s[0]] + rest[0];
      } else {
        assert Join(rest, sep) == rest[0] + [sep] + Join(rest[1..], sep);
        var r := Split(s, sep);
        assert r[1..] == rest[1..];
        assert s == [s[0]] + s[1..];
      }
    }
  }

  /** Splitting a join of separator-free pieces gives back the pieces. */
  lemma {:induction false} SplitJoin(parts: seq<string>, sep: char)
    requires |parts| >= 1
    requires forall i :: 0 <= i < |parts| ==> sep !in parts[i]
    ensures Split(Join(parts, sep), sep) == parts
  {
    if |parts| == 1 {
      SplitFree(parts[0], [], sep);
      assert parts[0] + [] == parts[0];
    } else {
      SplitJoin(parts[1..], sep);
      SplitPrefix(parts[0], Join(parts[1..], sep), sep);
      assert [parts[0]] + parts[1..] == parts;
    }
  }

  /** A separator-free string followed by a separator contributes exactly
      one piece to the split. */
  lemma {:induction false} SplitPrefix(p: string, rest: string, sep: char)
    requires sep !in p
    ensures Split(p + [sep] + rest, sep) == [p] + Split(rest, sep)
  {
    var t := [sep] + rest;
    assert t[0] == sep && t[1..] == rest;
    assert Split(t, sep) == [""] + Split(rest, sep);
    SplitFree(p, t, sep);
    assert p + [sep] + rest == p + t;
    assert p + "" == p;
  }

  /** Leading separator-free characters join the first piece of what follows. */
  lemma {:induction false} SplitFree(p: string, t: string, sep: char)
    requires sep !in p
    ensures var r := Split(t, sep);
            Split(p + t, sep) == [p + r[0]] + r[1..]
    decreases |p|
  {
    var r := Split(t, sep);
    if p == [] {
      assert p + t == t;
      assert p + r[0] == r[0];
      assert [r[0]] + r[1..] == r;
    } else {
      assert p[0] in p;
      SplitFree(p[1..], t, sep);
      assert p + t != [];
      assert (p + t)[1..] == p[1..] + t;
      assert (p + t)[0] == p[0];
      assert [p[0]] + (p[1..] + Split(t, sep)[0]) == p + Split(t, sep)[0];
    }
  }

  /** JavaScript `s.split(sep)[0]`: the text before the first separator, or
      all of `s` when it has none. */
  function FirstField(s: string, sep: char): (r: string)
    ensures |r| <= |s| && r == s[..|r|]
    ensures sep !in r
    ensures |r| < |s| ==> s[|r|] == sep
    ensures sep !in s ==> r == s
  {
    JoinSplit(s, sep);
    var parts := Split(s, sep);
    JoinHead(parts, sep);
    parts[0]
  }

  /** The join of pieces starts with the first piece, followed by the separator
      when there are more pieces. */
  lemma JoinHead(parts: seq<string>, sep: char)
    requires |parts| >= 1
    ensures var j := Join(parts, sep);
            |parts[0]| <= |j| && j[..|parts[0]|] == parts[0]
            && (|parts| >= 2 ==> |parts[0]| < |j| && j[|parts[0]|] == sep)
            && (|parts| == 1 ==> j == parts[0])
  {
  }
}
