/** The JavaScript string operations the core relies on:
    `includes`, `startsWith`, `split`, `join` and ASCII `toUpperCase`. */
module Strings {
  import opened Wrappers

  /** An optional string that is present and not empty: a truthy JavaScript value. */
  predicate Truthy(f: Option<string>) {
    f.Some? && f.value != ""
  }

  /** `sub` occurs in `s` starting at index `i`. */
  predicate OccursAt(s: string, sub: string, i: nat) {
    i + |sub| <= |s| && s[i..i + |sub|] == sub
  }

  /** Reference definition of `s.includes(sub)`: some index where `sub` occurs. */
  ghost predicate Occurs(s: string, sub: string) {
    exists i: nat :: OccursAt(s, sub, i)
  }

  /** `s.includes(sub)`, scanning `s` from the left. */
  predicate Includes(s: string, sub: string)
    decreases |s|
  {
    sub <= s || (|s| > 0 && Includes(s[1..], sub))
  }

  /** An occurrence in the tail is an occurrence one index further on, and
      every occurrence past index 0 comes from the tail. */
  lemma OccursInTail(s: string, sub: string)
    requires |s| > 0
    ensures Occurs(s[1..], sub) ==> Occurs(s, sub)
    ensures Occurs(s, sub) && !OccursAt(s, sub, 0) ==> Occurs(s[1..], sub)
  {
    forall i: nat | OccursAt(s[1..], sub, i) ensures OccursAt(s, sub, i + 1) {
      assert s[1..][i..i + |sub|] == s[i + 1..i + 1 + |sub|];
    }
    forall i: nat | OccursAt(s, sub, i) && i > 0 ensures OccursAt(s[1..], sub, i - 1) {
      assert s[1..][i - 1..i - 1 + |sub|] == s[i..i + |sub|];
    }
  }

  /** The scanning `Includes` agrees with the reference definition. */
  lemma {:induction false} IncludesIffOccurs(s: string, sub: string)
    ensures Includes(s, sub) <==> Occurs(s, sub)
    decreases |s|
  {
    if sub <= s {
      assert OccursAt(s, sub, 0);
    } else if |s| > 0 {
      IncludesIffOccurs(s[1..], sub);
      OccursInTail(s, sub);
      assert !OccursAt(s, sub, 0);
    } else {
      assert forall i: nat :: !OccursAt(s, sub, i);
    }
  }

  /** `parts.join(sep)`. */
  function Join(parts: seq<string>, sep: string): string {
    if |parts| == 0 then ""
    else if |parts| == 1 then parts[0]
    else parts[0] + sep + Join(parts[1..], sep)
  }

  /** `s.split(sep)` for a non-empty separator: the pieces between the
      leftmost non-overlapping occurrences of `sep`. */
  function Split(s: string, sep: string): (parts: seq<string>)
    requires |sep| > 0
    ensures |parts| >= 1
    decreases |s|
  {
    if |s| < |sep| then [s]
    else if s[..|sep|] == sep then [""] + Split(s[|sep|..], sep)
    else
      var rest := Split(s[1..], sep);
      [[s[0]] + rest[0]] + rest[1..]
  }

  /** No occurrence of `sep` starts inside `x` when `x` is followed by `sep`:
      `x` does not contain `sep`, and no occurrence straddles the boundary. */
  ghost predicate CleanBefore(x: string, sep: string) {
    forall i: nat :: i < |x| ==> !OccursAt(x + sep, sep, i)
  }

  /** A string without any occurrence of `sep` splits into itself. */
  lemma {:induction false} SplitNoSeparator(s: string, sep: string)
    requires |sep| > 0 && !Occurs(s, sep)
    ensures Split(s, sep) == [s]
    decreases |s|
  {
    if |s| >= |sep| {
      assert !OccursAt(s, sep, 0);
      forall i: nat ensures !OccursAt(s[1..], sep, i) {
        assert !OccursAt(s, sep, i + 1);
        if i + |sep| <= |s[1..]| {
          assert s[1..][i..i + |sep|] == s[i + 1..i + 1 + |sep|];
        }
      }
      SplitNoSeparator(s[1..], sep);
      assert [s[0]] + s[1..] == s;
    }
  }

  /** Splitting `x + sep + rest` cuts exactly after `x`. */
  lemma {:induction false} SplitAfterPiece(x: string, sep: string, rest: string)
    requires |sep| > 0 && CleanBefore(x, sep)
    ensures Split(x + sep + rest, sep) == [x] + Split(rest, sep)
    decreases |x|
  {
    var s := x + sep + rest;
    if |x| == 0 {
      assert s == sep + rest;
      assert s[..|sep|] == sep;
      assert s[|sep|..] == rest;
    } else {
      assert (x + sep)[0..|sep|] == s[..|sep|];
      assert !OccursAt(x + sep, sep, 0);
      assert s[..|sep|] != sep;
      forall i: nat | i < |x[1..]| ensures !OccursAt(x[1..] + sep, sep, i) {
        assert (x[1..] + sep)[i..] == (x + sep)[i + 1..];
        assert !OccursAt(x + sep, sep, i + 1);
        if i + |sep| <= |x[1..] + sep| {
          assert (x[1..] + sep)[i..i + |sep|] == (x + sep)[i + 1..i + 1 + |sep|];
        }
      }
      SplitAfterPiece(x[1..], sep, rest);
      assert s[1..] == x[1..] + sep + rest;
      assert [s[0]] + x[1..] == x;
    }
  }

  /** When no piece meets the separator, splitting undoes joining. */
  lemma {:induction false} SplitJoin(parts: seq<string>, sep: string)
    requires |sep| > 0 && |parts| >= 1
    requires forall k :: 0 <= k < |parts| - 1 ==> CleanBefore(parts[k], sep)
    requires !Occurs(parts[|parts| - 1], sep)
    ensures Split(Join(parts, sep), sep) == parts
    decreases |parts|
  {
    if |parts| == 1 {
      SplitNoSeparator(parts[0], sep);
    } else {
      SplitJoin(parts[1..], sep);
      SplitAfterPiece(parts[0], sep, Join(parts[1..], sep));
      assert [parts[0]] + parts[1..] == parts;
    }
  }

  /** A leading separator gives an empty first piece. */
  lemma SplitLeadingSeparator(c: char, t: string)
    ensures Split([c] + t, [c]) == [""] + Split(t, [c])
  {
    assert ([c] + t)[..1] == [c];
    assert ([c] + t)[1..] == t;
  }

  /** Any other leading character joins the first piece. */
  lemma SplitLeadingOther(a: char, c: char, t: string)
    requires a != c
    ensures Split([a] + t, [c]) == [[a] + Split(t, [c])[0]] + Split(t, [c])[1..]
  {
    assert ([a] + t)[..1] != [c];
    assert ([a] + t)[1..] == t;
  }

  /** Splitting on a single character distributes over a concatenation
      joined by that character. */
  lemma {:induction false} SplitConcatChar(x: string, c: char, y: string)
    ensures Split(x + [c] + y, [c]) == Split(x, [c]) + Split(y, [c])
    decreases |x|
  {
    if |x| == 0 {
      assert x + [c] + y == [c] + y;
      SplitLeadingSeparator(c, y);
      assert Split(x, [c]) == [""];
    } else {
      var t := x[1..] + [c] + y;
      assert x + [c] + y == [x[0]] + t;
      assert x == [x[0]] + x[1..];
      SplitConcatChar(x[1..], c, y);
      if x[0] == c {
        SplitLeadingSeparator(c, t);
        SplitLeadingSeparator(c, x[1..]);
      } else {
        SplitLeadingOther(x[0], c, t);
        SplitLeadingOther(x[0], c, x[1..]);
      }
    }
  }

  /** For a one-character separator, not containing it is enough. */
  lemma CleanBeforeSingle(x: string, c: char)
    requires !Occurs(x, [c])
    ensures CleanBefore(x, [c])
  {
    forall i: nat | i < |x| ensures !OccursAt(x + [c], [c], i) {
      assert (x + [c])[i..i + 1] == x[i..i + 1];
      assert !OccursAt(x, [c], i);
    }
  }

  /** For the separator ", " (whose two characters differ), not containing it is enough. */
  lemma CleanBeforeComma(x: string)
    requires !Occurs(x, ", ")
    ensures CleanBefore(x, ", ")
  {
    forall i: nat | i < |x| ensures !OccursAt(x + ", ", ", ", i) {
      if i + 2 <= |x| {
        assert (x + ", ")[i..i + 2] == x[i..i + 2];
        assert !OccursAt(x, ", ", i);
      } else {
        assert (x + ", ")[i + 1] == ',';
      }
    }
  }

  /** ASCII `toUpperCase` of one character. */
  function UpperChar(c: char): (u: char)
    ensures 'a' <= c <= 'z' ==> u as int == c as int - 32
    ensures !('a' <= c <= 'z') ==> u == c
  {
    if 'a' <= c <= 'z' then (c as int - 32) as char else c
  }

  /** ASCII `toUpperCase`: lower-case letters are raised, all else is kept. */
  function Upper(s: string): (u: string)
    ensures |u| == |s|
    ensures forall i :: 0 <= i < |s| ==> u[i] == UpperChar(s[i])
  {
    if s == [] then [] else [UpperChar(s[0])] + Upper(s[1..])
  }
}
