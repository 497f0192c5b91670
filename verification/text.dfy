/** String helpers the logging core relies on: ASCII case mapping (`str.upper`,
    `str.lower`), `sep.join(parts)` and the substring test `frag in s`. */
module Text {

  /** Upper-case one character; only the ASCII letters change. */
  function UpperChar(c: char): char {
    if 'a' <= c <= 'z' then (c as int - 32) as char else c
  }

  /** Lower-case one character; only the ASCII letters change. */
  function LowerChar(c: char): char {
    if 'A' <= c <= 'Z' then (c as int + 32) as char else c
  }

  /** `s.upper()` restricted to ASCII letters. */
  function ToUpper(s: string): (r: string)
    ensures |r| == |s|
    ensures forall i :: 0 <= i < |s| ==> r[i] == UpperChar(s[i])
  {
    if |s| == 0 then "" else [UpperChar(s[0])] + ToUpper(s[1..])
  }

  /** `s.lower()` restricted to ASCII letters. */
  function ToLower(s: string): (r: string)
    ensures |r| == |s|
    ensures forall i :: 0 <= i < |s| ==> r[i] == LowerChar(s[i])
  {
    if |s| == 0 then "" else [LowerChar(s[0])] + ToLower(s[1..])
  }

  /** No ASCII lower-case letter occurs in `s`. */
  predicate IsUpper(s: string) {
    forall i :: 0 <= i < |s| ==> !('a' <= s[i] <= 'z')
  }

  /** Upper-casing yields an upper-case string and is idempotent. */
  lemma ToUpperNormalises(s: string)
    ensures IsUpper(ToUpper(s))
    ensures ToUpper(ToUpper(s)) == ToUpper(s)
  {
  }

  /** Lower-casing after upper-casing forgets the upper-casing: the method name
      derived from a registered level name does not depend on the name's case. */
  lemma LowerOfUpper(s: string)
    ensures ToLower(ToUpper(s)) == ToLower(s)
  {
  }

  /** `sep.join(parts)`: the parts in order with `sep` between neighbours. */
  function Join(sep: string, parts: seq<string>): string
    decreases |parts|
  {
    if |parts| == 0 then ""
    else if |parts| == 1 then parts[0]
    else parts[0] + sep + Join(sep, parts[1..])
  }

  /** Splitting at every occurrence of `c` (Python's `s.split(c)`), the reference
      inverse of `Join`. */
  function Split(s: string, c: char): (r: seq<string>)
    ensures |r| >= 1
    decreases |s|
  {
    if |s| == 0 then [""]
    else
      var rest := Split(s[1..], c);
      if s[0] == c then [""] + rest
      else [[s[0]] + rest[0]] + rest[1..]
  }

  /** Joining the pieces of a split restores the string, for every string. */
  lemma {:induction false} JoinSplit(s: string, c: char)
    ensures Join([c], Split(s, c)) == s
    decreases |s|
  {
    if |s| == 0 {
    } else {
      var rest := Split(s[1..], c);
      JoinSplit(s[1..], c);
      assert Join([c], rest) == s[1..];
      if |rest| >= 2 {
        assert Join([c], rest) == rest[0] + [c] + Join([c], rest[1..]);
      }
      if s[0] == c {
        assert Split(s, c) == [""] + rest;
        assert ([""] + rest)[1..] == rest;
        assert Join([c], Split(s, c)) == "" + [c] + Join([c], rest);
        assert s == [s[0]] + s[1..];
      } else {
        var parts := [[s[0]] + rest[0]] + rest[1..];
        assert Split(s, c) == parts;
        if |rest| == 1 {
          assert Join([c], parts) == [s[0]] + rest[0];
          assert s == [s[0]] + s[1..];
        } else {
          assert parts[1..] == rest[1..];
          assert Join([c], parts) == [s[0]] + rest[0] + [c] + Join([c], rest[1..]);
          assert s == [s[0]] + s[1..];
        }
      }
    }
  }

  /** A piece without `c` splits to itself. */
  lemma {:induction false} SplitNoSep(p: string, c: char)
    requires c !in p
    ensures Split(p, c) == [p]
    decreases |p|
  {
    if |p| > 0 {
      SplitNoSep(p[1..], c);
      assert [p[0]] + p[1..] == p;
    }
  }

  /** A piece without `c`, then `c`, splits to that piece followed by the rest. */
  lemma {:induction false} SplitAtSep(p: string, c: char, t: string)
    requires c !in p
    ensures Split(p + [c] + t, c) == [p] + Split(t, c)
    decreases |p|
  {
    if |p| == 0 {
      assert p + [c] + t == [c] + t;
      assert ([c] + t)[1..] == t;
    } else {
      var s := p + [c] + t;
      assert s[1..] == p[1..] + [c] + t;
      SplitAtSep(p[1..], c, t);
      assert [p[0]] + p[1..] == p;
    }
  }

  /** Splitting a join restores the parts, provided there is at least one part
      and no part contains the separator. */
  lemma {:induction false} SplitJoin(parts: seq<string>, c: char)
    requires |parts| >= 1
    requires forall k :: 0 <= k < |parts| ==> c !in parts[k]
    ensures Split(Join([c], parts), c) == parts
    decreases |parts|
  {
    if |parts| == 1 {
      SplitNoSep(parts[0], c);
    } else {
      SplitJoin(parts[1..], c);
      SplitAtSep(parts[0], c, Join([c], parts[1..]));
      assert [parts[0]] + parts[1..] == parts;
    }
  }

  /** `frag` occurs in `s` starting at index `i`. */
  predicate OccursAt(frag: string, s: string, i: int) {
    0 <= i && i + |frag| <= |s| && s[i..i + |frag|] == frag
  }

  /** Python's `frag in s`. */
  predicate Contains(s: string, frag: string) {
    exists i | 0 <= i <= |s| - |frag| :: OccursAt(frag, s, i)
  }

  /** An occurrence survives appending text on either side. */
  lemma ContainsExtend(a: string, b: string, frag: string)
    ensures Contains(b, frag) ==> Contains(a + b, frag)
    ensures Contains(a, frag) ==> Contains(a + b, frag)
  {
    if Contains(b, frag) {
      var i :| 0 <= i <= |b| - |frag| && OccursAt(frag, b, i);
      assert (a + b)[|a| + i..|a| + i + |frag|] == b[i..i + |frag|];
      assert OccursAt(frag, a + b, |a| + i);
    }
    if Contains(a, frag) {
      var i :| 0 <= i <= |a| - |frag| && OccursAt(frag, a, i);
      assert (a + b)[i..i + |frag|] == a[i..i + |frag|];
      assert OccursAt(frag, a + b, i);
    }
  }

  /** An occurrence inside one of the parts is an occurrence in their join. */
  lemma {:induction false} ContainsJoin(sep: string, parts: seq<string>, k: int, frag: string)
    requires 0 <= k < |parts|
    requires Contains(parts[k], frag)
    ensures Contains(Join(sep, parts), frag)
    decreases |parts|
  {
    if |parts| == 1 {
    } else if k == 0 {
      ContainsExtend(parts[0], sep + Join(sep, parts[1..]), frag);
      assert Join(sep, parts) == parts[0] + (sep + Join(sep, parts[1..]));
    } else {
      ContainsJoin(sep, parts[1..], k - 1, frag);
      ContainsExtend(parts[0] + sep, Join(sep, parts[1..]), frag);
    }
  }

  /** When the fragment starts with a character the prefix lacks, an occurrence
      in `prefix + t` is exactly an occurrence in `t`. */
  lemma ContainsAfterPrefix(prefix: string, t: string, frag: string)
    requires |frag| > 0 && frag[0] !in prefix
    ensures Contains(prefix + t, frag) <==> Contains(t, frag)
  {
    ContainsExtend(prefix, t, frag);
    if Contains(prefix + t, frag) {
      var s := prefix + t;
      var i :| 0 <= i <= |s| - |frag| && OccursAt(frag, s, i);
      assert s[i] == frag[0];
      assert i >= |prefix|;
      assert s[i..i + |frag|] == t[i - |prefix|..i - |prefix| + |frag|];
      assert OccursAt(frag, t, i - |prefix|);
    }
  }
}
